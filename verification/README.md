# Blender add-on tools, modelled in Dafny

This project models the core logic of a collection of Blender add-ons and proves properties of that model:

- **RBF Nodes**, a node-based radial basis function solver. The model covers:
  - version stamps and size limits (`RbfUtils`);
  - the matrix container (`RbfMatrix`);
  - the solver node's chunked matrix storage (`RbfSolverNode`);
  - the bookkeeping of the solve and the evaluation (`RbfSolve`);
  - poses and their recall strings (`RbfPoses`);
  - property listings and paths (`RbfProperties`);
  - graph queries through reroute nodes (`RbfPlugs`);
  - node tree queries and node placement (`RbfNodeTree`);
  - adding nodes for a selection (`RbfAddMultiple`);
  - driver bookkeeping (`RbfDriver`, `RbfOutputNodes`);
  - the pose edit checkbox (`RbfPoseToggle`);
  - the refresh handler (`RbfHandler`);
  - the code-line counter of the development tools (`RbfDev`).
- **Rapid SDK**, a set-driven-key workflow:
  - object keys, variable names and target data paths (`RapidPaths`);
  - driver creation, key insertion and the operator's create/edit/reset state machine (`RapidSdk`).
- **Smooth Weights**, a weight-smoothing brush:
  - helper functions (`SmoothUtils`);
  - the weight arithmetic of a smoothing step (`SmoothLimits`);
  - the mesh cache with its undo stack and the surface walk (`SmoothMesh`);
  - the modal tool's event handling (`SmoothTool`).
- **Pick Walk**, selection walking through a hierarchy and switching to the left/right counterpart (`PickWalk`).
- **Tool Shelf**, a configurable panel of command buttons:
  - the configuration file's defaults, migration and backups (`ToolShelfConfig`);
  - operator names, command text, lookups, reordering and the editor's changes to the configuration (`ToolShelf`).
- **Place Reflection**, a modal operator that moves an object to where its reflection appears under the cursor (`PlaceReflection`).

`PyStr` gives Python's string semantics: `split`, `join`, `replace`, prefix and substring tests, and decimal rendering. `Wrappers` holds `Option`.

How the model represents the source:
- State the source changes in place is kept in classes, with `modifies` frames. Examples are the solver node, the smoothing mesh, the shelf configuration and the modal operators.
- Pure computations are functions, with lemmas relating them.
- Loops in the source are methods proved against specification functions.
- Floating-point values are `real`.
- Results the host application computes are parameters of the model. These are Blender API queries, square roots, ray casts and clock readings.

## Model

| member | source | states |
|---|---|---|
| RbfUtils.ParseDigits | RBFNodes/core/utils.py:25 | parsing the items of a dumped list of numbers gives the numbers back |
| RbfUtils.LoadsDumps | RBFNodes/core/utils.py:37 | `json.loads(json.dumps(v))` is the list `v` again, so a stored version decodes to the version written |
| RbfUtils.VersionStringSplits | RBFNodes/core/utils.py:53-62 | `versionString` joins the components with "." and splitting at "." recovers exactly those components |
| RbfUtils.GetAfterSet | RBFNodes/core/utils.py:31-50 | `getVersion` after `setVersion` is the add-on's own version string |
| RbfUtils.VerifyVersion | RBFNodes/core/utils.py:14-28 | no stored version, an empty one or `null` gives False; otherwise the stored major number is compared with the add-on's; undecodable text and an empty list are the error cases |
| RbfUtils.VerifyStamped | RBFNodes/core/utils.py:14-37 | a node stamped with version `v` passes exactly when `v[0]` is at most the add-on's major number |
| RbfUtils.CeilDiv | RBFNodes/core/utils.py:106 | `math.ceil(a / b)`: the least r with r * b >= a |
| RbfUtils.GetArrayCount | RBFNodes/core/utils.py:100-108 | without a configured count the default number of arrays; with one, the fewest arrays of `MAX_LEN` values that hold it |
| RbfHandler.EvaluatedSolvers | RBFNodes/core/handler.py:31-37 | the solvers evaluated are exactly the active, unmuted RBF nodes of every tree, in scan order |
| RbfHandler.RefreshTimer.constructor | RBFNodes/core/handler.py:14-15 | a new timer has no start time |
| RbfHandler.RefreshTimer.Refresh | RBFNodes/core/handler.py:22-37 | the first call and any call more than 0.01 s after the last refresh restarts the timer and evaluates the solvers; any other call changes nothing and evaluates none |
| RbfDev.NumCodeLines | RBFNodes/dev.py:101-128 | the loop's count equals the specification `CodeLines`, which never exceeds the number of lines |
| RbfDev.CodeLinesStep | RBFNodes/dev.py:114-127 | one more line adds one exactly when that line is counted, and moves the open-docstring state on by that line |
| RbfDev.NotCounted | RBFNodes/dev.py:115-125 | inside an open docstring nothing counts; a comment, blank or docstring-delimiter line never counts |
| RbfPlugs.GetInputNodes | RBFNodes/core/plugs.py:6-36 | every node returned has the requested type (or any type for ""), and every directly linked node of that type is returned |
| RbfPlugs.GetOutputNodes | RBFNodes/core/plugs.py:39-68 | the mirror image over output sockets: only nodes of the type, and all directly linked ones |
| RbfPlugs.DirectNeighboursFound | RBFNodes/core/plugs.py:22-30 | a linked node of the requested type is found whatever the recursion depth |
| RbfPlugs.GetObjectFromSocket | RBFNodes/core/plugs.py:71-88 | the object of the first object node found on the side asked for, and nothing when no such node is linked |
| RbfProperties.ListedKeysMembers | RBFNodes/core/properties.py:17-19 | a key is listed exactly when some property has that key and passes the test (not `_RNA_UI`'s characters, a number or a number list) |
| RbfProperties.CustomProperties | RBFNodes/core/properties.py:7-20 | the loop lists the passing keys in the object's key order |
| RbfProperties.NodeProperties | RBFNodes/core/properties.py:23-47 | the loop lists the numeric sockets of the chosen side, in socket order, each with its socket string |
| RbfProperties.NumericPlugsNamePositions | RBFNodes/core/properties.py:43-46 | every listed socket string names a numeric socket by that socket's own position |
| RbfProperties.SocketStringIndex | RBFNodes/core/properties.py:46 | the index written into "inputs[i]" is the one `int()` reads back after dropping the "]" and splitting at "[" |
| RbfProperties.ExpandProperty | RBFNodes/core/properties.py:50-69 | an unlisted name gives nothing; an ID array gives one `property:["n"][i]` path per element with that element's value; any other value one `property:["n"]` path |
| RbfProperties.RecallCustomPath | RBFNodes/core/poses.py:584-620 | round trip: `recallCustom` turns the plain path written by `expandProperty` back into an assignment to the same property, when the name has no "][" |
| RbfProperties.RecallCustomIndexPath | RBFNodes/core/poses.py:584-620 | round trip: the indexed path written by `expandProperty` is recalled as an assignment to the same property and the same index |
| RbfProperties.IndexPathSplit | RBFNodes/core/poses.py:605 | splitting an index path's body at "][" gives exactly the quoted name and the digits |
| RbfProperties.ExpandNodeProperty | RBFNodes/core/properties.py:72-96 | an array socket gives one entry per element, all with the path `node:plug.default_value`; any other value one entry |
| RbfProperties.NodePathSplits | RBFNodes/core/poses.py:247-256 | `split(":")` of a node property path recovers the node path and the socket path when neither holds ":" |
| RbfPoses.PropValues | RBFNodes/core/poses.py:91-104 | the values of a property list, one per property, in order |
| RbfPoses.PoseDataSize | RBFNodes/core/poses.py:91-104 | the number of values of all objects together (also `getPropertyCount`, lines 389-402) |
| RbfPoses.ComparePoseSize | RBFNodes/core/poses.py:107-126 | no message exactly when both sizes match the node; the driver mismatch is reported before the driven one |
| RbfPoses.LastPoseIndex | RBFNodes/core/poses.py:129-148 | −1 without poses, otherwise an existing pose index that no pose exceeds |
| RbfPoses.CreatePose | RBFNodes/core/poses.py:21-88 | a pose is created exactly when there is an RBF node, both data are non-empty lists and their sizes match the last pose; its index exceeds every existing index, its label is "Pose <index>", and it stores the data and their sizes |
| RbfPoses.ObjectToString | RBFNodes/core/poses.py:366-386 | a string passes through and an object gives its name |
| RbfPoses.BoneStringSplits | RBFNodes/core/poses.py:382-384 | the "armature:bone" string of a bone splits back into the armature and the bone when neither holds ":" |
| RbfPoses.RecallModifier | RBFNodes/core/poses.py:646-669 | fails (the source's IndexError) exactly when the path has no second ":" |
| RbfPoses.RecallModifierParts | RBFNodes/core/poses.py:666-669 | round trip: "modifier:M:p" is recalled as property p of modifier M |
| RbfPoses.RecallTransform | RBFNodes/core/poses.py:489-517 | fails exactly when the path without its last character has no "[" |
| RbfPoses.RecallTransformParts | RBFNodes/core/poses.py:489-517 | round trip: "name[i]" is recalled as component i of `name` |
| RbfPoses.RecallShapeKeyName | RBFNodes/core/poses.py:623-643 | round trip: "shapeKey:K" is recalled as the value of key block K |
| RbfPoses.TwistLines | RBFNodes/core/poses.py:538-541 | one line per component of the rotation |
| RbfPoses.RecallTwist | RBFNodes/core/poses.py:520-541 | the loop's lines are the twist lines, component by component |
| RbfPoses.TwistLinesIndex | RBFNodes/core/poses.py:540 | every twist line writes to the object's quaternion |
| RbfPoses.RecallProperty | RBFNodes/core/poses.py:544-581 | a path without "[" sets the data property to the value; with "[" it fails exactly when there is no text after the "[" or `int()` rejects it |
| RbfPoses.RecallPropertyParts | RBFNodes/core/poses.py:544-581 | round trip: "rna_property:name[i]" is recalled as element i of the data property `name`, written as the whole value list |
| RbfPoses.RecallNodeSocket | RBFNodes/core/poses.py:672-710 | the socket of a path written by `expandNodeProperty` is the socket `recallNode` assigns to, with the element index for an array socket |
| RbfPoses.RecallTargetBone | RBFNodes/core/poses.py:425-437 | the name `objectToString` writes for a bone is recalled as that bone of that armature |
| RbfPoses.RecallPoseForObject | RBFNodes/core/poses.py:405-486 | the nested loops give the specification's lines, object by object and property by property, or fail as soon as a builder raises |
| RbfPoses.RecallObject | RBFNodes/core/poses.py:440-484 | the inner loop gives one object's lines and counts its node sockets |
| RbfPoses.PoseLinesFailKeeps | RBFNodes/core/poses.py:422-484 | once an object fails, the whole recall fails |
| RbfPoses.ObjectLinesFailKeeps | RBFNodes/core/poses.py:442-484 | once a property fails, its object fails |
| RbfPoses.ObjectLinesFail | RBFNodes/core/poses.py:442-484 | an object fails exactly when the builder of one of its properties raises |
| RbfPoses.NodeSocketsNumbered | RBFNodes/core/poses.py:479-484 | the sockets of a node with several properties are numbered 0, 1, 2, … in order |
| RbfPoses.EditCache.constructor | RBFNodes/core/poses.py:713-718 | the cache starts empty |
| RbfPoses.EditCache.EditPose | RBFNodes/core/poses.py:724-748 | fails without an RBF node and leaves the cache alone; otherwise both fields are set |
| RbfPoses.EditCache.UpdatePose | RBFNodes/core/poses.py:751-787 | with a field missing both are cleared; with an empty data list nothing changes; an error pair from either data getter makes `json.dumps` raise with the cache kept, after the driver data are written when only the driven side failed; with data on both sides both go to the edited pose and both fields are cleared |
| RbfPoseToggle.TickedUpdate | RBFNodes/editor/nodes/pose.py:38-57 | ticking or unticking one box changes the number of ticked boxes by exactly one |
| RbfPoseToggle.TickedOne | RBFNodes/editor/nodes/pose.py:38-57 | a ticked box counts, so at most one ticked box means it is the only one |
| RbfPoseToggle.PoseToggle.constructor | RBFNodes/editor/nodes/pose.py:9-16 | no box is ticked, no pose is edited and no revert is pending |
| RbfPoseToggle.PoseToggle.Unticked | RBFNodes/editor/nodes/pose.py:53-57 | unless it is the revert of a refused tick, the pose is stored and the edit flag cleared; the skip flag is always cleared |
| RbfPoseToggle.PoseToggle.Click | RBFNodes/editor/nodes/pose.py:30-57 | unticking stores the pose and ends editing; a tick while no pose is edited and `editPose` succeeds starts editing; any other tick is reverted and changes nothing; at most one pose is ever edited and the edit flag says whether one is |
| RbfDriver.DriverPath | RBFNodes/core/driver.py:99-109 | a bone's property path starts with the bone's `pose.bones["b"]` prefix and ends with the property; an object's is the property |
| RbfDriver.BonePathRoundTrip | RBFNodes/core/driver.py:106-109 | the property is read back from a bone's driver path after the prefix and the "." separator |
| RbfDriver.GetDriverIndex | RBFNodes/core/driver.py:82-127 | the first F-Curve with the driven path, the stored index (−1 stored as 0) and a target reading the driver path; −1 exactly when none matches |
| RbfDriver.GetShapeKeyDriverIndex | RBFNodes/core/driver.py:130-145 | the first F-Curve with a target reading the driver path whatever it drives; nothing (Python's `None`) exactly when none has one |
| RbfDriver.AddSlot | RBFNodes/core/driver.py:52 | the F-Curve `driver_add` reuses: the first with the path and stored index, or a new one at the end |
| RbfDriver.DriverAdd | RBFNodes/core/driver.py:34-59 | the reused or appended F-Curve gains a target reading the driver path and then matches; every other F-Curve is unchanged and no target is lost |
| RbfDriver.DriverRemove | RBFNodes/core/driver.py:195 | nothing new appears; index −1 removes exactly the F-Curves of the path; otherwise at most the one matching F-Curve goes |
| RbfDriver.DriverBlock.constructor | RBFNodes/core/driver.py:111-115 | a block holds the F-Curves it is given |
| RbfDriver.OutputNode.constructor | RBFNodes/editor/nodes/node_output.py:49-50 | a new node's slots are all −1 and it drives nothing |
| RbfDriver.Cleared | RBFNodes/core/driver.py:167 | every slot −1 |
| RbfDriver.Removals | RBFNodes/core/driver.py:192-196 | one (path, index) per step, the step's driven path under the driven object's prefix |
| RbfDriver.CreateDrivers | RBFNodes/editor/nodes/node_output.py:174-187 | when every slot exists: the drivers of all steps are added in order, each step's slot records a driver matching it, other slots keep their values and the node drives when a step ran; a missing slot stops the loop right after that step's driver was added |
| RbfDriver.CreateAll | RBFNodes/core/driver.py:172-179 | the same loop on the slots and F-Curves as values |
| RbfDriver.RecordedStep | RBFNodes/core/driver.py:176-178 | adding step i's driver and recording the found index keeps every earlier step recorded |
| RbfDriver.AddAndFind | RBFNodes/core/driver.py:176-178 | `createNodeGroupDriver` followed by `getDriverIndex` finds a driver matching the one just added |
| RbfDriver.AddKeepsCreated | RBFNodes/core/driver.py:176 | adding a driver keeps every recorded driver a match |
| RbfDriver.SetKeepsCreated | RBFNodes/core/driver.py:178 | recording a step in its own slot keeps the earlier steps recorded |
| RbfDriver.DeleteDrivers | RBFNodes/editor/nodes/node_output.py:190-207 | every (path, index) is removed in turn, and the slots are cleared exactly when asked |
| RbfDriver.AxisPlan | RBFNodes/core/driver.py:172-179 | each step drives component k from output k into slot k, for an enabled axis k |
| RbfDriver.AxisPlanSlots | RBFNodes/core/driver.py:172-174 | slot k is used exactly when axis k is enabled, and no slot outside the axes is used |
| RbfDriver.AxisPlanDistinct | RBFNodes/core/driver.py:172-174 | no slot is used twice, and some slot is used exactly when some axis is enabled |
| RbfDriver.AxisPlanRecorded | RBFNodes/core/driver.py:172-179 | after the loop an enabled axis's slot records its driver and a disabled axis's slot stays −1 |
| RbfDriver.AxisPlanIndex | RBFNodes/core/driver.py:172-179 | an enabled axis has its step in the plan |
| RbfDriver.DeleteTransformDriver | RBFNodes/core/driver.py:182-199 | the driver of every enabled axis is removed, then all three slots are cleared |
| RbfDriver.CreateAxisDrivers | RBFNodes/core/driver.py:172-179 | from cleared slots: an enabled axis's slot records a matching driver, a disabled one stays −1, and the node drives when an axis is enabled |
| RbfDriver.ClearTransformDriver | RBFNodes/core/driver.py:166-170 | the slots are cleared and, when the RBF node is active, the drivers of the enabled axes removed |
| RbfDriver.CreateTransformDriver | RBFNodes/core/driver.py:152-179 | after it each enabled axis k drives component k of the transform from output k, recorded in slot k; a disabled axis's slot is −1; the drivers are the old ones minus the removed ones plus the new ones |
| RbfDriver.EnableDriver | RBFNodes/core/driver.py:202-223 | exactly the F-Curves some slot points at (Python's negative indexing included, out-of-range ones skipped) get `mute = not enable`; the others are unchanged |
| RbfMatrix.FlatLength | RBFNodes/core/matrix.py:82-88 | the flattened matrix holds rows × cols values |
| RbfMatrix.FlatAt | RBFNodes/core/matrix.py:82-88 | element (i, j) sits at position i·cols + j of the flattened matrix (row-major order) |
| RbfMatrix.UnflattenRect | RBFNodes/core/matrix.py:82-88 | cutting rows × cols values into rows gives a rows × cols matrix |
| RbfMatrix.UnflattenFlat | RBFNodes/core/matrix.py:82-88 | round trip: cutting the flattened matrix, followed by any padding, back into rows gives the matrix again |
| RbfMatrix.Matrix.constructor | RBFNodes/core/matrix.py:12-22 | a rows × cols matrix of zeros |
| RbfMatrix.Matrix.Set | RBFNodes/core/matrix.py:37-47 | exactly element (i, j) changes, to the value |
| RbfMatrix.Matrix.Copy | RBFNodes/core/matrix.py:70-80 | a new matrix, not the old one, with the same size and values |
| RbfMatrix.Matrix.Flatten | RBFNodes/core/matrix.py:82-88 | rows × cols values from which the matrix is recovered row by row |
| RbfMatrix.Matrix.Normalize | RBFNodes/core/matrix.py:112-135 | with as many factors as rows (or columns) every element is divided by its row's (column's) factor where that factor is positive; otherwise nothing changes and False is returned |
| RbfMatrix.Matrix.NormalizeRows | RBFNodes/core/matrix.py:137-146 | every element is divided by its row's positive factor; elements of rows with a factor ≤ 0 keep their values |
| RbfMatrix.Matrix.NormalizeCols | RBFNodes/core/matrix.py:148-161 | the same by columns |
| RbfMatrix.Matrix.SetSize | RBFNodes/core/matrix.py:185-223 | the new size; without `clear`, elements inside both the old and the new size keep their values; every other element is the fill value |
| RbfMatrix.Matrix.RowVector | RBFNodes/core/matrix.py:225-234 | row `index`, element by element |
| RbfMatrix.Matrix.ColumnVector | RBFNodes/core/matrix.py:236-252 | the loop collects column `index`, one element per row |
| RbfMatrix.Matrix.SolveShapeError | RBFNodes/core/matrix.py:294-297 | the solve is refused, with the source's message, exactly when the matrix is not square |
| RbfMatrix.NormalizeVector | RBFNodes/core/matrix.py:363-383 | a vector and factors of different lengths are returned unchanged; otherwise each value is divided by its positive factor |
| RbfSolve.PoseTable | RBFNodes/core/rbf.py:193-225 | one row per pose, as wide as the first pose's data: each row starts with that pose's values and is zero after them |
| RbfSolve.PropertyDataToMatrix | RBFNodes/core/rbf.py:193-225 | the loops fill a new matrix with exactly the pose table |
| RbfSolve.NormalizedTable | RBFNodes/core/rbf.py:88-90 | every element divided by its column's positive norm |
| RbfSolve.PoseMatrixTable | RBFNodes/core/rbf.py:101-103 | the normalised input table with the norms appended as one more row |
| RbfSolve.FirstFailure | RBFNodes/core/rbf.py:165-174 | the position of the first output column whose solve failed, every earlier one having succeeded; the number of columns when none failed |
| RbfSolve.WeightTable | RBFNodes/core/rbf.py:163-177 | element (j, i) is weight j of output column i |
| RbfSolve.BuildWeightMatrix | RBFNodes/core/rbf.py:162-177 | the loop stops at the first failed solve; when none fails, the matrix is the weight table |
| RbfSolve.ExtendedPoseMatrix | RBFNodes/core/rbf.py:85-103 | a new matrix holding the normalised input table plus the norm row |
| RbfSolve.RecordStatistics | RBFNodes/core/rbf.py:131-142 | the mean and the variance are stored; unless the radius type is custom the radius is set from the chosen statistic and the node left active; a custom radius is untouched |
| RbfSolve.StorageWithinCapacity | RBFNodes/core/rbf.py:105-114 | with a limit no larger than the 32 arrays of 32 values the final storage never fails, and the solve succeeds exactly when there are poses, both matrices fit and every column solves |
| RbfSolve.ExpectedStages | RBFNodes/core/rbf.py:79-190 | the outcome is decided in the source's order: no poses, pose matrix too large, weight matrix too large, the first failed column, the storage |
| RbfSolve.SolveWeightMatrix | RBFNodes/core/rbf.py:67-190 | the result is the expected outcome; a size failure changes nothing on the node; on success the pose matrix with its norm row and the weight table are stored and the statistics recorded; a failed column leaves the stored weights as they were |
| RbfSolve.SolveStage | RBFNodes/core/rbf.py:128-190 | the part after the pose matrix is stored: statistics, the column solves and the weight storage |
| RbfSolve.StorePoseMatrix | RBFNodes/core/rbf.py:101-122 | fails with the first size warning that applies, changing nothing; otherwise the pose matrix with its norm row is stored |
| RbfSolve.StoreWeights | RBFNodes/core/rbf.py:162-186 | a failed column is reported with its message and leaves the weights alone; otherwise the weight table is stored |
| RbfSolve.InterpolateRbf | RBFNodes/core/rbf.py:288-328 | the linear kernel returns the value itself (the other kernels are the source's formulas over the host's `exp`, `log` and `sqrt`) |
| RbfSolve.ZeroWidthIsUnit | RBFNodes/core/rbf.py:302-303 | a width of 0 behaves as a width of 1 for every kernel |
| RbfSolve.ThinPlateNonPositive | RBFNodes/core/rbf.py:318-320 | the thin-plate kernel returns value / width for a non-positive value |
| RbfSolve.Clamped | RBFNodes/core/rbf.py:395-396 | without negative weights the value is never negative; a non-negative value, or any value with negative weights allowed, is kept |
| RbfSolve.OutputActions | RBFNodes/core/rbf.py:387-417 | one action per output property |
| RbfSolve.WriteOutputs | RBFNodes/core/rbf.py:387-417 | the loop, with its quaternion block marker, produces exactly the specified actions |
| RbfSolve.WriteOne | RBFNodes/core/rbf.py:389-417 | one step of the loop: the action at i and the block marker after it |
| RbfSolve.StartsApart | RBFNodes/core/rbf.py:404-410 | no quaternion block starts within the three outputs after the start of another |
| RbfSolve.BlockSkipped | RBFNodes/core/rbf.py:411-414 | a quaternion output inside a block is skipped |
| RbfSolve.QuaternionRunWrittenOnce | RBFNodes/core/rbf.py:404-414 | a run of four quaternion outputs is written once, from its first three values, and its other three outputs are skipped |
| RbfSolve.NoNegativeWrites | RBFNodes/core/rbf.py:395-417 | without negative weights no single or indexed value written is negative |
| RbfSolve.Normalized | RBFNodes/core/matrix.py:363-383 | the normalised driver vector has the driver vector's length |
| RbfSolve.OutputValues | RBFNodes/core/rbf.py:372-378 | output j is the weighted sum over the poses of weight (i, j) times the kernel of pose i's distance |
| RbfSolve.AccumulateOutputs | RBFNodes/core/rbf.py:372-378 | the nested loops compute exactly those sums |
| RbfSolve.EvaluatedValues | RBFNodes/core/rbf.py:352-378 | one value per column of the stored weight matrix |
| RbfSolve.GetPoseWeights | RBFNodes/core/rbf.py:331-417 | nothing happens without a pose matrix, without a weight matrix or without driver values; a property count different from the weight columns deactivates the node; otherwise the actions are those of the evaluated values |
| RbfSolverNode.ArrayCountBounds | RBFNodes/editor/nodes/rbf.py:291 | `ceil(size / 32)` arrays hold the values, and one fewer would not |
| RbfSolverNode.Zeros | RBFNodes/editor/nodes/rbf.py:225 | n zeros |
| RbfSolverNode.Padded | RBFNodes/editor/nodes/rbf.py:293-295 | the values followed by zeros up to a whole number of arrays |
| RbfSolverNode.Chunk | RBFNodes/editor/nodes/rbf.py:298-300 | chunk k is a full array of 32 values |
| RbfSolverNode.ConcatChunks | RBFNodes/editor/nodes/rbf.py:297-302 | reading the first n stored chunks back gives the first n · 32 padded values |
| RbfSolverNode.StoreThenRead | RBFNodes/editor/nodes/rbf.py:275-350 | round trip: cutting the chunks written by `setMatrix` back into rows gives the matrix |
| RbfSolverNode.ConcatLength | RBFNodes/editor/nodes/rbf.py:345-346 | n arrays of 32 values give n · 32 values |
| RbfSolverNode.ReadArraysRect | RBFNodes/editor/nodes/rbf.py:348-350 | a matrix read back has the requested size |
| RbfSolverNode.ChunksNext | RBFNodes/editor/nodes/rbf.py:298-302 | storing the next chunk extends the stored prefix by one array |
| RbfSolverNode.ReadEmpty | RBFNodes/editor/nodes/rbf.py:339-340 | a 0 × 0 matrix reads as no matrix |
| RbfSolverNode.SolverNode.constructor | RBFNodes/editor/nodes/rbf.py:28-135 | the property defaults: no stored matrices, standard-deviation radius of 1, negative weights allowed, inactive, mean distance and variance 1 |
| RbfSolverNode.SolverNode.SetFloatVector | RBFNodes/editor/nodes/rbf.py:352-362 | exactly array `index` of the named matrix changes, to the values |
| RbfSolverNode.SolverNode.SetMatrix | RBFNodes/editor/nodes/rbf.py:275-302 | the first `ceil(rows · cols / 32)` arrays hold the chunks of the flattened matrix and the others keep their values; it fits exactly when no more than 32 arrays are needed |
| RbfSolverNode.SolverNode.SetPoseMatrix | RBFNodes/editor/nodes/rbf.py:255-263 | the size is recorded, and reading the pose matrix back gives the matrix when it fits, nothing when it is empty, and a missing array otherwise |
| RbfSolverNode.SolverNode.SetWeightMatrix | RBFNodes/editor/nodes/rbf.py:265-273 | the same for the weight matrix |
| RbfSolverNode.SolverNode.GetMatrix | RBFNodes/editor/nodes/rbf.py:324-350 | nothing exactly when rows · cols is 0; otherwise the values of the first arrays cut into `rows` rows |
| RbfSolverNode.SolverNode.GetPoseMatrix | RBFNodes/editor/nodes/rbf.py:304-312 | the stored pose matrix |
| RbfSolverNode.SolverNode.GetWeightMatrix | RBFNodes/editor/nodes/rbf.py:314-322 | the stored weight matrix |
| RbfSolverNode.SolverNode.Reset | RBFNodes/editor/nodes/rbf.py:212-233 | inactive, statistics 0, sizes 0, every array zero, and both stored matrices read as nothing |
| RbfSolverNode.SolverNode.ZeroArrays | RBFNodes/editor/nodes/rbf.py:225-228 | the loop zeroes all 32 arrays of both matrices |
| RbfSolverNode.SolverNode.GetRadius | RBFNodes/editor/nodes/rbf.py:235-249 | the mean distance, the variance, the standard deviation or the custom radius, by radius type |
| RbfSolverNode.SolverNode.Active | RBFNodes/editor/nodes/rbf.py:176-192 | an active node without input and output connections becomes inactive; the result is the new state |
| RbfSolverNode.SolverNode.SetActive | RBFNodes/editor/nodes/rbf.py:194-210 | the state is set |
| RbfSolverNode.UnflattenLength | RBFNodes/editor/nodes/rbf.py:349 | cutting values into `rows` rows gives `rows` rows |
| RbfNodeTree.GetRBFFromTree | RBFNodes/core/nodeTree.py:126-139 | exactly the solver nodes of the tree, in tree order |
| RbfNodeTree.Neighbourhood | RBFNodes/core/nodeTree.py:161-170 | every node collected through the inputs and outputs has the requested type |
| RbfNodeTree.FindConnectedNode | RBFNodes/core/nodeTree.py:142-173 | nothing without an active node; the active node itself when it has type `nodeId`; otherwise the connected solver nodes, since the neighbourhood search always looks for "RBFSolverNode" whatever `nodeId` is, or nothing when there are none |
| RbfNodeTree.GetRBFNode | RBFNodes/core/nodeTree.py:101-123 | only a solver is returned: the active one, else the first connected one, else the tree's solver exactly when the tree has exactly one |
| RbfNodeTree.Insert | RBFNodes/core/nodeTree.py:195 | inserting a node adds it once and keeps the rest |
| RbfNodeTree.InsertSorted | RBFNodes/core/nodeTree.py:195 | insertion into a list sorted by pose index keeps it sorted |
| RbfNodeTree.SortByPoseIndex | RBFNodes/core/nodeTree.py:191-199 | a permutation of the nodes, sorted by ascending pose index |
| RbfNodeTree.GetPoseNodes | RBFNodes/core/nodeTree.py:176-201 | the pose nodes connected to the third input, each once, sorted by ascending pose index |
| RbfNodeTree.SourceNodePosition | RBFNodes/core/nodeTree.py:204-248 | a position exactly when there is a reference node |
| RbfNodeTree.PlacementMirrors | RBFNodes/core/nodeTree.py:230-248 | left and right placements share the height and mirror each other about the base node |
| RbfNodeTree.ObjectOutputsMapKeys | RBFNodes/core/nodeTree.py:420-426 | the map has a key for exactly the objects of the object output nodes, and never the node-output key |
| RbfNodeTree.ObjectOutputsMapEntries | RBFNodes/core/nodeTree.py:422-426 | an object's entry is the property outputs of the last object output node with that object |
| RbfNodeTree.PropertyOutputsOf | RBFNodes/core/nodeTree.py:423-425 | the loop collects the nodes behind every output socket, socket by socket |
| RbfNodeTree.WithProperties | RBFNodes/core/nodeTree.py:429-433 | exactly the node output nodes that have properties; none exactly when no node has any |
| RbfNodeTree.ObjectOutputs | RBFNodes/core/nodeTree.py:411-426 | the loop builds exactly the object map |
| RbfNodeTree.GetRBFOutputNodes | RBFNodes/core/nodeTree.py:399-437 | the object entries as the object map; the "NodeOutput" entry exactly when some node output node has properties, holding exactly those nodes |
| RbfNodeTree.EditTargets | RBFNodes/core/nodeTree.py:448-451 | every target is a node of the tree |
| RbfNodeTree.PropertyNodes | RBFNodes/core/nodeTree.py:453-456 | every property node is a node of the tree |
| RbfNodeTree.SetAll | RBFNodes/core/nodeTree.py:455-456 | exactly the listed nodes get the state |
| RbfNodeTree.AffectedByNext | RBFNodes/core/nodeTree.py:450-456 | one more target adds exactly the nodes it sets |
| RbfNodeTree.MarkTarget | RBFNodes/core/nodeTree.py:451-456 | a target and, for an object node, its property nodes get the state; nothing else changes |
| RbfNodeTree.SetNodesEditable | RBFNodes/core/nodeTree.py:440-475 | exactly the input (output) nodes of both kinds and the property nodes of the object nodes get the state; every other node keeps its flag |
| RbfOutputNodes.Outputs | RBFNodes/editor/nodes/rotation_output.py:93-113 | the output index of every step, in order |
| RbfOutputNodes.RotationRemovalsMatch | RBFNodes/editor/nodes/rotation_output.py:168-172 | the removal loop visits the same axes as the creation loop |
| RbfOutputNodes.RotationDeleteMatchesCreate | RBFNodes/editor/nodes/rotation_output.py:119-175 | `deleteDriver` removes exactly the (path, index) pairs `createDriver` drives |
| RbfOutputNodes.RotationPlanShape | RBFNodes/editor/nodes/rotation_output.py:137-151 | in Euler mode x, y and z drive slots 1 to 3 from outputs 0 to 2 (w is never used); any other mode drives all four slots from outputs 0 to 3 |
| RbfOutputNodes.FourPlanShape | RBFNodes/editor/nodes/rotation_output.py:140-151 | outside Euler mode the axis flags do not matter: slot k is driven by output k, for k from 0 to 3 |
| RbfOutputNodes.RotationOutputs | RBFNodes/editor/nodes/rotation_output.py:102-111 | the outputs created are the enabled x, y, z in order in Euler mode, else 0 to 3 |
| RbfOutputNodes.RotationOutputProperties | RBFNodes/editor/nodes/rotation_output.py:93-113 | `getOutputProperties` lists exactly the outputs `createDriver` drives, whatever the w flag |
| RbfOutputNodes.ClearRotationDriver | RBFNodes/editor/nodes/rotation_output.py:129-133 | all four slots cleared and, when the RBF node is active, the existing drivers removed |
| RbfOutputNodes.DeleteRotationDriver | RBFNodes/editor/nodes/rotation_output.py:153-175 | the drivers of the enabled axes are removed and all four slots cleared |
| RbfOutputNodes.CreateEulerDrivers | RBFNodes/editor/nodes/rotation_output.py:137-151 | enabled axis x, y, z is driven from output 0, 1, 2 and recorded in slot 1, 2, 3; disabled axes and slot 0 stay −1 |
| RbfOutputNodes.CreateFourDrivers | RBFNodes/editor/nodes/rotation_output.py:140-151 | all four components driven and recorded in their slots |
| RbfOutputNodes.CreateRotationDriver | RBFNodes/editor/nodes/rotation_output.py:119-151 | the whole `createDriver`: the slots as above, and the drivers are the old ones minus the removed ones plus the new ones |
| RbfOutputNodes.GetPropertyName | RBFNodes/editor/nodes/custom_output.py:114-127 | the list entry in list mode, the typed name in manual mode, and "" exactly when the chosen one is empty or "NONE" |
| RbfOutputNodes.OutputProperties | RBFNodes/editor/nodes/custom_output.py:129-142 | exactly the slots below n that record a driver, in ascending order |
| RbfOutputNodes.CountedPlanShape | RBFNodes/editor/nodes/custom_output.py:164-182 | one property drives the whole property (index −1) from output 0 into slot 0; several drive element i from output i into slot i; no slot is used twice |
| RbfOutputNodes.CountedRemovalsMatch | RBFNodes/editor/nodes/custom_output.py:190-203 | the removal loop steps through the same indices as the creation loop |
| RbfOutputNodes.CountedDeleteMatchesCreate | RBFNodes/editor/nodes/custom_output.py:184-206 | `deleteDriver` removes exactly the (path, index) pairs `createDriver` drives |
| RbfOutputNodes.CreateCountedDrivers | RBFNodes/editor/nodes/custom_output.py:164-182 | with no more properties than slots, each is driven and recorded as the plan says and the remaining slots stay −1; more properties than slots fail (the source's IndexError) |
| RbfOutputNodes.CustomPaths | RBFNodes/editor/nodes/custom_output.py:171 | every driver of a custom property uses the same `["name"]` path |
| RbfOutputNodes.DeleteCustomDriver | RBFNodes/editor/nodes/custom_output.py:184-206 | the custom property's drivers removed from the driven object or pose bone (under the bone-prefixed path for a pose bone), with the same driven indices `createDriver` uses, and the three slots cleared |
| RbfOutputNodes.ClearCustomDriver | RBFNodes/editor/nodes/custom_output.py:158-162 | the slots cleared and, when the RBF node is active, the drivers of the driven object or pose bone removed |
| RbfOutputNodes.CreateCustomDriver | RBFNodes/editor/nodes/custom_output.py:148-182 | the whole `createDriver` of the custom output, on an object or a pose bone: fails exactly when the property has more than three elements; otherwise each element is driven under the object's or the bone-prefixed path and recorded as the plan says |
| RbfOutputNodes.BuildDriverItems | RBFNodes/editor/nodes/node_output.py:118-148 | the items exist exactly when the path has a ":" and the socket part a "." (the source raises otherwise) |
| RbfOutputNodes.BuildDriverItemsParts | RBFNodes/editor/nodes/node_output.py:134-146 | round trip: a path "node:socket.prop…" gives back the node, the socket and the property |
| RbfOutputNodes.MaterialLongPath | RBFNodes/editor/nodes/node_output.py:143-144 | for a material the long path is everything after the last "node_tree." joined to the socket path |
| RbfOutputNodes.NodeGroupLongPath | RBFNodes/editor/nodes/node_output.py:145-146 | for a node group it is "nodes" plus everything after the last ".nodes", joined to the socket path |
| RbfOutputNodes.DeleteNodeOutputDriver | RBFNodes/editor/nodes/node_output.py:190-207 | the drivers of every property are removed; the slots are kept |
| RbfOutputNodes.LongPaths | RBFNodes/editor/nodes/node_output.py:176-181 | the long path of every property, in order |
| RbfOutputNodes.CreateNodeOutputDriver | RBFNodes/editor/nodes/node_output.py:150-188 | fails exactly when there are more properties than the four slots; otherwise each property is driven through its long path and recorded as the plan says |
| RbfAddMultiple.EditBoneOwner | RBFNodes/core/add_multiple.py:74-87 | nothing exactly when no selected object uses the bone's armature; otherwise the first selected object that does |
| RbfAddMultiple.EditBoneEntriesOwned | RBFNodes/core/add_multiple.py:102-106 | every entry names a selected bone and that bone's owner, and every bone with an owner gets an entry |
| RbfAddMultiple.ObjectsToProcess | RBFNodes/core/add_multiple.py:90-114 | edit bones win over pose bones, which win over objects: the owned edit bones, else every pose bone with its armature, else every selected object without a bone |
| RbfAddMultiple.LowestIndex | RBFNodes/core/add_multiple.py:160-175 | nothing exactly for no connected nodes; otherwise the first node of least y |
| RbfAddMultiple.Lowest | RBFNodes/core/add_multiple.py:148-175 | the loop with its running minimum finds that same node |
| RbfAddMultiple.LowestUnique | RBFNodes/core/add_multiple.py:160-175 | the first node of least y is unique, so the loop and the specification agree |
| RbfAddMultiple.PlacementSides | RBFNodes/core/add_multiple.py:179-214 | below the lowest connected node and at its x when there is one, so below every connected node; otherwise at the RBF node's height, left of it for an input and right of it for an output |
| RbfAddMultiple.NewNode.constructor | RBFNodes/core/add_multiple.py:232-234 | a new node at the origin with its size |
| RbfAddMultiple.NewNode.PlaceNewNode | RBFNodes/core/add_multiple.py:136-217 | without an RBF node the location is kept; otherwise it is the placement |
| RbfAddMultiple.Rects | RBFNodes/core/add_multiple.py:226-247 | the rectangles of the added nodes, in order |
| RbfAddMultiple.AddOne | RBFNodes/core/add_multiple.py:227-247 | one node of the requested kind for the entry, placed relative to the active node and linked to it |
| RbfAddMultiple.CreateAndLink | RBFNodes/core/add_multiple.py:220-247 | without a tree nothing is added; otherwise one node per entry, in order, each placed below the nodes connected before it |
| RapidPaths.ObjectToString | rapidSDK.py:715-742 | a pose bone's key starts with the pose bone tag and the separator `::`, a shape key's with the shape key tag, any other object's with the object tag |
| RapidPaths.ObjectsToString | rapidSDK.py:726-742 | one key per object of the list, in order |
| RapidPaths.StringToObject | rapidSDK.py:745-773 | a key of more than two parts names a pose bone |
| RapidPaths.StringToObjectToString | rapidSDK.py:715-773 | reading a key back gives the object it was made from, for names without ':' |
| RapidPaths.Kept | rapidSDK.py:1364-1376 | no bracket or double quote survives, and nothing is added |
| RapidPaths.CleanVariableKept | rapidSDK.py:1364-1376 | removing '[', ']' and '"' one after the other keeps every other character, in order |
| RapidPaths.KeptAppend | rapidSDK.py:1364-1376 | cleaning distributes over concatenation |
| RapidPaths.PropPath | rapidSDK.py:1452-1456 | the five transforms are written bare, every other property quoted in brackets |
| RapidPaths.FilterPoseBone | rapidSDK.py:1512-1533 | a pose bone gives its armature and the prefix `pose.bones["<bone>"].`; any other object passes through with no prefix |
| RapidPaths.RawParts | rapidSDK.py:1318-1328 | the attribute cut at "][", at "[" when it has no quote, or left whole: never empty |
| RapidPaths.ReadAttr | rapidSDK.py:1329-1338 | the property is the cleaned first part and the bone is the given one; without two parts the index is -1 |
| RapidPaths.ParseTarget | rapidSDK.py:1294-1338 | off armatures the bone is empty; the property read holds no bracket or quote; nothing where the source raises |
| RapidPaths.ReadWritten | rapidSDK.py:1452-1466 | the attribute written for a named property and index reads back as that property and index |
| RapidPaths.ParsePlainTarget | rapidSDK.py:1294-1338 | the target path of an object driver, e.g. `location[2]`, `["size"][1]` or `["expand"]`, reads back as its name and index |
| RapidPaths.ParseBoneTarget | rapidSDK.py:1300-1307 | the target path of a pose bone driver reads back as the bone, the property and the index |
| RapidSdk.PropertyIsAvailable | rapidSDK.py:964-994 | in create mode a property is available exactly when it is neither driven nor animated; in edit mode exactly when it is driven |
| RapidSdk.DrivenIndexOfPath | rapidSDK.py:1349-1352 | a driven custom property reads back with index -1, a transform with its array index |
| RapidSdk.CreateDriver | rapidSDK.py:1559-1590 | a named property's curve is added on the object under its path and index; a shape key's on its key block, with index -1 |
| RapidSdk.VarNamesDistinct | rapidSDK.py:1425-1432 | the variables `var1`, `var2`, ... never share a name |
| RapidSdk.IdAfter | rapidSDK.py:1435-1442 | without shape key changes every variable reads from the driving object |
| RapidSdk.AddDriverStep | rapidSDK.py:1429-1472 | one more driving change switches the id on a shape key and adds its start and end to the sums |
| RapidSdk.AddVariables | rapidSDK.py:1424-1472 | one variable per driving change, each as specified, and the summed starts and ends |
| RapidSdk.AddDriver | rapidSDK.py:1396-1509 | a sum for several drivers and an average for one; one variable per change; when the curve is found, two keys map the summed start and end to the driven start and end, and linear extrapolation only with the preference |
| RapidSdk.AddDriverTargetsRead | rapidSDK.py:1422-1466 | every variable written for a pose bone driver reads back as that bone, property and index |
| RapidSdk.AddDriverTargetsReadPlain | rapidSDK.py:1442-1466 | the same for an object driver |
| RapidSdk.StartsAppend | rapidSDK.py:1471-1472 | the summed start of several drivers is additive over a split of the list |
| RapidSdk.DrivingValue | rapidSDK.py:1671-1684 | the driving value is the sum over every variable and every source |
| RapidSdk.InsertKey | rapidSDK.py:1686-1704 | with a key close to the driving value every such key takes the driven value and the others are kept; otherwise one key is appended |
| RapidSdk.InsertKeyHits | rapidSDK.py:1686-1704 | afterwards the curve has a key at the driving value holding the driven value |
| RapidSdk.FirstIndex | rapidSDK.py:342 | the first position holding the value |
| RapidSdk.RemoveFirst | rapidSDK.py:342 | one occurrence fewer of the removed value and the same multiset otherwise |
| RapidSdk.RapidSdkState.constructor | rapidSDK.py:308-320 | no driver, no driven, neither create nor edit mode |
| RapidSdk.RapidSdkState.ResetDriverState | rapidSDK.py:628-649 | the driven curves are re-enabled and the driven list and edit mode cleared |
| RapidSdk.RapidSdkState.InitEdit | rapidSDK.py:605-625 | without driver curves nothing changes; otherwise edit mode starts with the object as the only driven |
| RapidSdk.RapidSdkState.Execute | rapidSDK.py:322-470 | every branch: the missing active warning, starting a set-up without the active object, the failing `remove`, ending create mode with its warnings, entering and leaving edit mode, the inconclusive selection and the reset on an empty selection; the driver changes only when a set-up starts |
| SmoothLimits.Column | smoothWeights.py:2402-2406 | the weight group g has in each connected vertex, one per vertex |
| SmoothLimits.BlendSumBounds | smoothWeights.py:2402-2406 | weights and factors in [0, 1] give a blended sum between 0 and the number of connected vertices |
| SmoothLimits.AveragedInUnit | smoothWeights.py:2398-2408 | averaging over the connected vertices stays within [0, 1] when every input does |
| SmoothLimits.AverageWeights | smoothWeights.py:2387-2418 | every group keeps its id and gets the average of the blends with its connected vertices; a locked group, or a vertex without connected vertices, keeps its weight |
| SmoothLimits.Ranking | smoothWeights.py:2427 | the groups by descending weight, a permutation of the (group, weight) entries |
| SmoothLimits.RankingEntries | smoothWeights.py:2427 | every ranked entry is a group of the list with its own weight |
| SmoothLimits.RankingCovers | smoothWeights.py:2427 | every group has a place in the ranking |
| SmoothLimits.LimitGroups | smoothWeights.py:2426-2445 | the loop writes back, group by group, the weight of each of the first `maxGroups` ranked groups and 0 for the rest |
| SmoothLimits.LimitWritesShape | smoothWeights.py:2433-2445 | after k writes each group keeps its id and is either untouched, kept or zeroed according to its place in the ranking |
| SmoothLimits.LimitGroupsAtMost | smoothWeights.py:2426-2445 | at most `maxGroups` groups keep a non-zero weight, each the weight it had |
| SmoothLimits.NormalizedWeight | smoothWeights.py:2451-2480 | the normalised weight is always clamped into [0, 1] |
| SmoothLimits.Normalize | smoothWeights.py:2451-2480 | every group keeps its id and gets its normalised weight, from the totals over all, the locked and the unlocked groups |
| SmoothLimits.NormalizeKeepsZero | smoothWeights.py:2451-2480 | a zeroed group stays zero, so the group limit survives normalisation |
| SmoothLimits.NormalizeKeepsLocked | smoothWeights.py:2466-2478 | with locks, a locked group whose weight is in range keeps it |
| SmoothLimits.NormalizeSumsToOne | smoothWeights.py:2457-2461 | without locks, non-negative weights with a positive total are normalised to weights summing to 1 |
| SmoothLimits.NormalizedNonZero | smoothWeights.py:2451-2480 | normalisation gives no group a weight it did not have |
| SmoothLimits.ComputeWeights | smoothWeights.py:2351-2485 | one weight per group, each keeping its id; with normalisation every weight is in [0, 1]; with connected vertices and the group limit at most `maxGroups` groups are non-zero |
| SmoothLimits.BrushValue | smoothWeights.py:1254-1275 | the adjusted value is never below 0.001 and at most 1 for the strength and volume range keys; an in-range value is kept |
| SmoothMesh.Expanded | smoothWeights.py:1822-1849 | one (weight, group) pair per group of the mesh |
| SmoothMesh.AssignedWeightOf | smoothWeights.py:1822-1849 | a group the vertex belongs to gets its weight |
| SmoothMesh.AssignedWeightAbsent | smoothWeights.py:1822-1849 | a group the vertex does not belong to gets 0 |
| SmoothMesh.Nothing | smoothWeights.py:823 | an undo entry with no vertex saved |
| SmoothMesh.SaveTouched | smoothWeights.py:2256-2267 | each processed vertex not yet saved gets its current weights saved and its index appended once; every other vertex is left as it was |
| SmoothMesh.WriteSmoothed | smoothWeights.py:2283-2297 | each processed vertex, and its opposite boundary vertex unless islands are kept apart, takes its smoothed weights and is marked for cancel; no other vertex changes |
| SmoothMesh.Mesh.constructor | smoothWeights.py:1587-1656 | the weights of every vertex read from its group list, no stroke yet and nothing to cancel |
| SmoothMesh.Mesh.VertexWeights | smoothWeights.py:1822-1849 | the full weight list of a vertex; the largest group count seen only grows |
| SmoothMesh.Mesh.StartStroke | smoothWeights.py:818-823 | at the undo limit the oldest entry is dropped, then an empty entry is pushed in front |
| SmoothMesh.SplitSelection | smoothWeights.py:2199-2208 | the selected and the unselected vertices, each exactly once and in index order |
| SmoothMesh.RangeOf | smoothWeights.py:2211-2235 | one entry per chosen vertex, in the same order, at the flood strength and with its opposite boundary vertex |
| SmoothMesh.FloodVertData | smoothWeights.py:2199-2235 | the flood range: exactly the vertices the selection settings affect (the selected ones, the unselected ones, or all without the selection), each once in index order, at the flood strength and with its opposite boundary vertex |
| SmoothMesh.TouchedAt | smoothWeights.py:2256-2267 | a vertex is touched by a range exactly when an entry of the range is that vertex and the selection settings affect it |
| SmoothMesh.WrittenAt | smoothWeights.py:2283-2297 | a vertex is written by a range exactly when an affected entry is that vertex or, unless islands are kept apart, has it as its opposite boundary vertex |
| SmoothMesh.FloodTouchesAffected | smoothWeights.py:2180-2237 | over a flood range, a vertex is saved for undo exactly when the selection settings affect it, and written exactly when it is affected or, unless islands are kept apart, is the opposite boundary vertex of an affected one |
| SmoothMesh.Mesh.FloodSmooth | smoothWeights.py:2180-2237 | a new undo entry goes in front, with no undo limit; it saves exactly the affected vertices' weights; the affected vertices and their opposite boundary vertices take their smoothed weights and are marked for cancel; nothing else changes |
| SmoothMesh.Mesh.PerformSmooth | smoothWeights.py:2239-2300 | the first touch of a vertex in a stroke saves its weights for undo; the written vertices take their smoothed weights and are marked for cancel; nothing else changes |
| SmoothMesh.Mesh.UndoStroke | smoothWeights.py:1930-1939 | with an entry to undo, the newest is popped and exactly the vertices it recorded get their saved weights back; with none nothing changes |
| SmoothMesh.Mesh.Cancel | smoothWeights.py:737-758 | every vertex marked during the session gets back the weights it had when the mesh was read; the others keep theirs |
| SmoothMesh.ClosestFaceVertex | smoothWeights.py:1946-1984 | none exactly when no face vertex is within the radius; otherwise the first vertex at the least distance among those within it |
| SmoothMesh.CollectStep | smoothWeights.py:2086-2098 | collecting an unvisited vertex within the radius keeps the brush range well formed |
| SmoothMesh.VisitNeighbours | smoothWeights.py:2079-2104 | the unvisited connected vertices are visited, collected when within the radius and queued with their opposite boundary vertex |
| SmoothMesh.VerticesOnSurface | smoothWeights.py:2036-2115 | the centre comes first with its falloff; every other vertex appears at most once and only within the radius, with its falloff and opposite boundary vertex |
| SmoothTool.SmoothTool.constructor | smoothWeights.py:686-735 | the tool reads its settings, group limit and falloff curve; no drag, no frame drag, no held group key |
| SmoothTool.SmoothTool.Drag | smoothWeights.py:801-832 | an unmodified left click starts dragging and pushes an empty undo entry within the undo limit; a left release stops dragging; otherwise the undo lists are unchanged |
| SmoothTool.SmoothTool.MouseAndFrame | smoothWeights.py:837-880 | the shift right press starts a frame drag, the right release ends it; mouse moves are undersampled |
| SmoothTool.SmoothTool.Toggles | smoothWeights.py:899-997 | a press of a setting key flips exactly that setting (a number key sets the curve) and ends the event; every other setting is kept |
| SmoothTool.SmoothTool.MaxGroupsKeys | smoothWeights.py:999-1026 | the group key held lets the value keys add one or take one away, never below 1 |
| SmoothTool.SmoothTool.Reset | smoothWeights.py:773-778 | both selection modes are off and dragging has ended |
| SmoothTool.SmoothTool.LaterKeys | smoothWeights.py:1029-1103 | flood pushes an undo entry and smooths exactly the affected vertices (and their opposite boundary vertices); the selection modes each clear the other; undo of the last stroke; finishing and cancelling switch off both selection modes and dragging, and cancelling restores the weights; passing through only while not dragging; nothing else changes the weights or the undo list |
| SmoothTool.SmoothTool.ValueKeys | smoothWeights.py:999-1103 | while the group key is held the later keys change nothing; otherwise flood, finishing and cancelling act as in `LaterKeys` |
| SmoothTool.SmoothTool.Keys | smoothWeights.py:899-1103 | the setting keys first, then the value keys, with the group limit, flood, finishing and cancelling as specified |
| SmoothTool.SmoothTool.EventSelector | smoothWeights.py:785-1103 | one event of the modal operator: dragging state, group limit, flood and the held group key as specified; finishing and cancelling switch off both selection modes and dragging; a held group key blocks the later keys |
| SmoothUtils.Clamp | smoothWeights/utils.py:57-71 | within the range for an ordered range, never below the minimum, and a value in range is kept |
| SmoothUtils.LastMatch | smoothWeights/utils.py:101 | the last word that is a side label, with no label after it; none when no word is one |
| SmoothUtils.ReplaceOneWord | smoothWeights/utils.py:90-123 | either the name is returned as it is, or for one delimiter exactly one word is swapped for its counterpart and every other word is kept |
| SmoothUtils.NoLabelUnchanged | smoothWeights/utils.py:122-123 | a name with no side label at any delimiter is returned unchanged |
| SmoothUtils.Pluralize | smoothWeights/utils.py:126-153 | the count, a space and the (prefixed) label, with one more "s" exactly when the deciding number exceeds one; nothing for a list of fewer than two numbers |
| SmoothUtils.CountStringSplits | smoothWeights/utils.py:141 | the numbers of a list count read back from its text |
| SmoothUtils.SortEntries | smoothWeights/utils.py:281 | sorted by weight and a permutation of the entries |
| SmoothUtils.Limit | smoothWeights/utils.py:286-297 | the limiting loop keeps every skipped group and the first `maxCount` of the others |
| SmoothUtils.SortDict | smoothWeights/utils.py:264-299 | sorted entries; with a limit, the limited sorted entries |
| SmoothUtils.LimitedSplit | smoothWeights/utils.py:286-297 | every entry of a skipped group is kept, and of the others exactly the first `maxCount` |
| SmoothUtils.GetUnaffectedGroupIndices | smoothWeights/utils.py:355-379 | none for "ALL", the non-deforming groups for "DEFORM", the deforming groups for any other mode |
| PickWalk.CasedInCase | pickWalk.py:231-239 | every case variant of a label is in that case and lowers back to the label |
| PickWalk.Form | pickWalk.py:242-272 | the token searched for (prefix `x_`, suffix `_x`, embedded `_x_`) is longer than its label |
| PickWalk.Check | pickWalk.py:242-272 | a step that matches returns two tokens of at least two characters |
| PickWalk.SearchFirst | pickWalk.py:228-274 | the search from a step returns the first match at or after it in search order, or ("", "") when there is none |
| PickWalk.SearchNone | pickWalk.py:274 | with no match from a step on, nothing is found |
| PickWalk.SideIdentifierFirst | pickWalk.py:213-274 | `sideIdentifier` returns the first match over labels, then cases, then prefix, suffix and embedded position, left before right; ("", "") when none matches |
| PickWalk.LabelsLower | pickWalk.py:76-77 | the labels are lower case, the left ones start with 'l' and the right ones with 'r' |
| PickWalk.CasedPair | pickWalk.py:231-239 | both labels of a pair in one case are in that case, lower back to the labels and differ |
| PickWalk.CheckShape | pickWalk.py:242-272 | a match returns the token found in the name and its opposite: the same position kind and case, the other label of the same pair |
| PickWalk.FindSideIdentifier | pickWalk.py:213-274 | the nested loops return exactly the specified first match |
| PickWalk.MatchKinds | pickWalk.py:242-272 | the innermost loop returns the match of the step, or passes on to the next case |
| PickWalk.ReplaceEveryOccurrence | pickWalk.py:198-210 | every occurrence of the found token is swapped for its opposite, not only the matched one; without a token the name is unchanged |
| PickWalk.Index | pickWalk.py:312 | the first position of the item among the children |
| PickWalk.Lookup | pickWalk.py:328-334 | the item of that name when there is one, and none exactly when no item carries the name |
| PickWalk.SiblingIndex | pickWalk.py:313 | the wrapped position is always a valid child position |
| PickWalk.SiblingIndexInverse | pickWalk.py:296-313 | stepping forward then back, or back then forward, returns to the position |
| PickWalk.OppositeOf | pickWalk.py:320-338 | the counterpart is an item of the scene; none where the lookup raises |
| PickWalk.Step | pickWalk.py:301-338 | where one selected item goes is an item of the scene |
| PickWalk.Steps | pickWalk.py:301-338 | the step of every item, in order |
| PickWalk.Walked | pickWalk.py:300-338 | the items to select are items of the scene |
| PickWalk.WalkedShape | pickWalk.py:300-338 | with extend each item is followed by its step; without, position k holds the step of item k |
| PickWalk.WalkedFails | pickWalk.py:300-338 | a walk fails exactly when one of its steps fails |
| PickWalk.StepFails | pickWalk.py:322-334 | only a switch of sides on a plain object fails, and only when no object carries the opposite name |
| PickWalk.OppositePlain | pickWalk.py:198-210 | a name without a side identifier switches to the item itself |
| PickWalk.SiblingSameParent | pickWalk.py:306-316 | a sibling step stays among the children of the same parent; without a parent the item stays |
| PickWalk.IndexOfChild | pickWalk.py:312 | the index of a child among its parent's children is its position |
| PickWalk.SiblingRoundTrip | pickWalk.py:424-477 | walking right then left, or left then right, returns to the starting item |
| PickWalk.DownThenUp | pickWalk.py:360-421 | walking down then up returns to the item; an item without children stays |
| PickWalk.Scene.constructor | pickWalk.py:137-152 | a scene with nothing selected and no active object |
| PickWalk.Scene.Collect | pickWalk.py:300-338 | the collecting loop gives exactly the walked list, or none at the first failing step |
| PickWalk.Scene.SelectObjects | pickWalk.py:117-134 | each item is added to the selection, a plain object also becoming the active one |
| PickWalk.Scene.Walk | pickWalk.py:292-341 | the selection is cleared and then holds exactly the walked items; when a step fails it stays empty |
| PickWalk.Scene.HierarchyUp | pickWalk.py:360-383 | the parent of every selected item is selected (the item itself without one) |
| PickWalk.Scene.HierarchyDown | pickWalk.py:398-421 | the first child of every selected item is selected (the item itself without one) |
| PickWalk.Scene.SelectSibling | pickWalk.py:277-341 | the next or previous sibling, or the item of the other side, is selected; only a side switch to a missing object fails |
| PickWalk.Scene.StepsSucceed | pickWalk.py:300-316 | walks that do not switch sides never fail |
| ToolShelfConfig.ConfigBase | toolShelf/config.py:42-57 | the default configuration has no groups and the default language |
| ToolShelfConfig.MigrateSub | toolShelf/config.py:195-205 | a sub-command gains "iconOnly" when missing and, when the set has a "valueName" it lacks, the set's "valueName" and "value"; every other key is kept and nothing else is added |
| ToolShelfConfig.MigratedSubs | toolShelf/config.py:195-205 | every sub-command of a set, migrated, in order |
| ToolShelfConfig.MigrateCommand | toolShelf/config.py:193-211 | a plain command gains "iconOnly" when missing and keeps every key; a set command keeps its keys and has its sub-commands migrated |
| ToolShelfConfig.MigratedCommands | toolShelf/config.py:192-211 | every command of a group, migrated, in order |
| ToolShelfConfig.MigrateGroup | toolShelf/config.py:190-211 | a group keeps its keys, and all but its commands unchanged |
| ToolShelfConfig.MigratedGroups | toolShelf/config.py:190-211 | every group, migrated, in order |
| ToolShelfConfig.SubFixed | toolShelf/config.py:197-205 | a sub-command is left alone exactly when it has nothing to add |
| ToolShelfConfig.CommandFixed | toolShelf/config.py:207-211 | a command is left alone exactly when it has nothing to add |
| ToolShelfConfig.GroupFixed | toolShelf/config.py:192-211 | a group is left alone exactly when it has nothing to add |
| ToolShelfConfig.GroupsFixed | toolShelf/config.py:190-211 | the migration leaves the groups untouched exactly when none has anything to add |
| ToolShelfConfig.CommandUpToDate | toolShelf/config.py:193-211 | a migrated command is well formed and has nothing more to add |
| ToolShelfConfig.GroupUpToDate | toolShelf/config.py:190-211 | a migrated group is well formed and has nothing more to add |
| ToolShelfConfig.MigrationIdempotent | toolShelf/config.py:188-211 | a second migration finds nothing to add and changes nothing |
| ToolShelfConfig.MigrateSubs | toolShelf/config.py:195-205 | the loop over the sub-commands migrates each and reports an update exactly when one had something to add |
| ToolShelfConfig.MigrateCommands | toolShelf/config.py:192-211 | the loop over the commands migrates each and reports an update exactly when one had something to add |
| ToolShelfConfig.MigrateGroups | toolShelf/config.py:190-211 | the loop over the groups gives the migrated groups and reports an update exactly when some command had something to add |
| ToolShelfConfig.WithLanguage | toolShelf/config.py:178-180 | the configuration gains a "language" entry when missing and keeps every other entry |
| ToolShelfConfig.BackupWritten | toolShelf/config.py:213-215 | a backup is written exactly when the configuration needs rewriting |
| ToolShelfConfig.BackupWrittenAsWritten | toolShelf/config.py:186-215 | the code as written also writes its backup exactly when a rewrite is needed |
| ToolShelfConfig.UpdateConfig | toolShelf/config.py:167-219 | the updated configuration is returned; when it needs rewriting, the backup is the configuration before the migration and the updated configuration is saved; otherwise nothing is written |
| ToolShelfConfig.NoGroupsNoWrite | toolShelf/config.py:178-184 | without groups only the language is added and nothing is written |
| ToolShelfConfig.UpdateKeepsSettings | toolShelf/config.py:176-219 | everything but the groups comes through unchanged, and there is always a language |
| ToolShelfConfig.UpdateConfigIdempotent | toolShelf/config.py:167-219 | an updated configuration needs no further update: a second run writes nothing and changes nothing |
| ToolShelfConfig.ConfigBaseUpToDate | toolShelf/config.py:42-57 | the default configuration is already up to date |
| ToolShelfConfig.BackupBeforeMigration | toolShelf/config.py:213-215 | the corrected backup holds the groups as they were, and differs from the rewritten configuration exactly when some command lacked a key |
| ToolShelfConfig.BackupAsWrittenLosesOriginal | toolShelf/config.py:186-215 | as written, whenever a command needed a key the backup already holds the migrated groups |
| ToolShelfConfig.BackupAsWrittenExample | toolShelf/config.py:186-215 | a single plain command without "iconOnly" shows the two backups differ |
| ToolShelfConfig.NextBackupIndex | toolShelf/config.py:148-164 | the index is 1 for an empty listing and always below the backup count; none where the source raises |
| ToolShelfConfig.BackupFileName | toolShelf/config.py:143 | a backup file name is a ".json" file |
| ToolShelfConfig.NextAfterBackup | toolShelf/config.py:143-164 | after a backup file written by this code the next index is the following one modulo five, so the backups rotate |
| ToolShelf.WordChars | toolShelf/__init__.py:99 | only word characters of the input survive, none is added |
| ToolShelf.WordCharsAppend | toolShelf/__init__.py:99 | dropping non-word characters distributes over concatenation |
| ToolShelf.WordCharsKeeps | toolShelf/__init__.py:99 | a text of word characters is kept whole |
| ToolShelf.IdName | toolShelf/__init__.py:250-267 | an id name holds only lower-case word characters |
| ToolShelf.IdNameIdempotent | toolShelf/__init__.py:250-267 | an id name is its own id name, so two names clash exactly when their id names are equal |
| ToolShelf.IdNameSpace | toolShelf/__init__.py:267 | a space between two words becomes the underscore between their id names |
| ToolShelf.GetIdNameSplit | toolShelf/__init__.py:270-280 | the operator id is the area and the id name around one dot |
| ToolShelf.IconIdName | toolShelf/__init__.py:365-374 | an icon id starts with "icon_" and holds no dot |
| ToolShelf.IconIdNameStem | toolShelf/__init__.py:374 | the extension of the image file is dropped |
| ToolShelf.GroupNames | toolShelf/__init__.py:1101-1102 | the name of every group, in order |
| ToolShelf.CommandNames | toolShelf/__init__.py:1118-1120 | the name of every command, in order |
| ToolShelf.FirstIndex | toolShelf/__init__.py:1092-1121 | the first position holding the name, and none exactly when no item has it |
| ToolShelf.InsertAt | toolShelf/__init__.py:822 | `insert`: the item at its place, the others shifted, one more of it in the multiset |
| ToolShelf.RemoveAt | toolShelf/__init__.py:940 | `pop`: the item taken out, the others shifted, one fewer of it in the multiset |
| ToolShelf.SelectionRange | toolShelf/__init__.py:1210-1227 | the current and the end line, in ascending order |
| ToolShelf.SelectedLines | toolShelf/__init__.py:1149-1165 | the lines a command is taken from are never empty |
| ToolShelf.ExpandTabs | toolShelf/__init__.py:1156 | a line with its tabs widened holds no tab |
| ToolShelf.ExpandAll | toolShelf/__init__.py:1154-1165 | every line with its tabs widened, in order |
| ToolShelf.WithImportMeaning | toolShelf/__init__.py:1136-1141 | a typed command is kept as the suffix; a command using `bpy.` always ends up importing it; the text changes exactly when `bpy.` is used without the import |
| ToolShelf.WithImportIdempotent | toolShelf/__init__.py:1136-1141 | processing a processed command again changes nothing |
| ToolShelf.EditorTextLines | toolShelf/__init__.py:1144-1166 | with an editor open, the command splits at newlines back into the tab-expanded selected lines |
| ToolShelf.Moved | toolShelf/__init__.py:1296-1308 | a move keeps the length of the list |
| ToolShelf.MovedSwaps | toolShelf/__init__.py:1296-1308 | a move swaps the item with its neighbour and changes nothing else; at the end of the list it changes nothing; the multiset is kept |
| ToolShelf.MovedRoundTrip | toolShelf/__init__.py:1284-1308 | moving an item and then moving it back restores the list |
| ToolShelf.ReorderItem | toolShelf/__init__.py:1260-1281 | nothing exactly when no group is selected; the tool when one is selected, otherwise the group |
| ToolShelf.ReorderedKeepsGroups | toolShelf/__init__.py:1298-1302 | reordering the groups keeps the multiset of groups |
| ToolShelf.ReorderedKeepsTools | toolShelf/__init__.py:1303-1308 | reordering a tool touches only its group, which keeps its name and the multiset of its commands |
| ToolShelf.CommandInto | toolShelf/__init__.py:875-914 | after the backup the run is saved exactly when it finishes, and a run that does not finish leaves the groups |
| ToolShelf.CommandBackedUp | toolShelf/__init__.py:857-914 | adding or editing a command backs up the groups before any change it saves |
| ToolShelf.ChangesAreBackedUp | toolShelf/__init__.py:780-1013 | a run that does not finish changes and saves nothing; a run that changes the groups backs up the previous ones first and saves the new ones |
| ToolShelf.AddGroupTwiceCancels | toolShelf/__init__.py:800-806 | a new group whose name exists is refused and nothing is written |
| ToolShelf.AddedGroupPlace | toolShelf/__init__.py:809-827 | a new group lands right after the selected group, or at the end, and its name then finds it |
| ToolShelf.AddCommandTwiceCancels | toolShelf/__init__.py:859-865 | a new command whose id name some command already has is refused and nothing is written |
| ToolShelf.AddedCommandPlace | toolShelf/__init__.py:868-899 | a new command goes into the selected group, right after the selected tool or at the end; the other groups are unchanged |
| ToolShelf.NewCommandFields | toolShelf/__init__.py:889-892 | the new command carries the name, the processed command and the given tooltip or else the name |
| ToolShelf.InsertKeepsUnique | toolShelf/__init__.py:895-899 | inserting a command with a new id name keeps the id names unique |
| ToolShelf.InsertGroupKeepsUnique | toolShelf/__init__.py:812-824 | inserting a group without commands keeps the id names unique |
| ToolShelf.AddKeepsIdsUnique | toolShelf/__init__.py:800-914 | adding a group or a command never makes two commands share an id name |
| ToolShelf.EditStarsKeep | toolShelf/__init__.py:901-911 | editing with every field "*" (or the image and tooltip empty) leaves the groups as they were |
| ToolShelf.RemoveExactly | toolShelf/__init__.py:927-963 | removing takes out exactly the selected group, or exactly the selected tool of its group |
| ToolShelf.ApplyOrderBackup | toolShelf/__init__.py:971-981 | as written the backup of a new order is an empty dictionary; corrected, it holds the configuration last saved |
| ToolShelf.MoveThenApply | toolShelf/__init__.py:971-981 | moving an item and then applying backs up the order before the move and saves the new one |
| ToolShelf.ViewShowsCommand | toolShelf/__init__.py:986-1011 | viewing changes and saves nothing and shows the tool's command under its id name |
| ToolShelf.ProcessCommand | toolShelf/__init__.py:1124-1166 | the line-collecting loop gives exactly the specified command text |
| ToolShelf.ExpandLines | toolShelf/__init__.py:1164-1165 | the lines of the range, each with its tabs widened |
| ToolShelf.MoveOne | toolShelf/__init__.py:1299-1308 | `pop` and `insert` give the specified move |
| ToolShelf.EditFields | toolShelf/__init__.py:902-911 | the field-by-field edit gives the specified edited command |
| ToolShelf.Shelf.constructor | toolShelf/__init__.py:240 | a shelf read from its file: the groups in memory are the ones saved, no backup yet |
| ToolShelf.Shelf.CurrentGroupIndex | toolShelf/__init__.py:1092-1103 | the first group with the name |
| ToolShelf.Shelf.CurrentToolIndex | toolShelf/__init__.py:1106-1121 | the first tool of the group with the name |
| ToolShelf.Shelf.CommandIdTaken | toolShelf/__init__.py:860-865 | the search reports exactly whether some command has the id name |
| ToolShelf.Shelf.BackupConfig | toolShelf/__init__.py:1230-1238 | a backup of the groups in memory is added; nothing else changes |
| ToolShelf.Shelf.AddGroup | toolShelf/__init__.py:800-827 | the shelf changes as the add-group run specifies |
| ToolShelf.Shelf.RenameGroup | toolShelf/__init__.py:841-852 | the shelf changes as the rename run specifies |
| ToolShelf.Shelf.SaveCommand | toolShelf/__init__.py:857-914 | the shelf changes as the command run specifies |
| ToolShelf.Shelf.PlaceCommand | toolShelf/__init__.py:885-914 | after the backup the command is placed and saved as specified |
| ToolShelf.Shelf.AddCommand | toolShelf/__init__.py:888-899 | the new command is inserted and saved as specified |
| ToolShelf.Shelf.EditCommand | toolShelf/__init__.py:901-911 | the selected tool is edited and saved as specified |
| ToolShelf.Shelf.RemoveItem | toolShelf/__init__.py:927-963 | the shelf changes as the remove run specifies |
| ToolShelf.Shelf.ApplyOrder | toolShelf/__init__.py:971-981 | the corrected order run: the saved order backed up and the new one saved |
| ToolShelf.Shelf.ViewCommand | toolShelf/__init__.py:986-1011 | the outcome and the text shown are the view run's; nothing changes |
| ToolShelf.Shelf.Execute | toolShelf/__init__.py:780-1013 | the shelf, the outcome and the text shown are those of the specified run for the form's mode |
| ToolShelf.Shelf.Reorder | toolShelf/__init__.py:1284-1308 | the groups are reordered as specified, or left where the source raises; the file and backups are left alone |
| ToolShelf.Shelf.MoveItem | toolShelf/__init__.py:1026-1085 | cancelled exactly without a selected group; otherwise the selected tool or group moves one place; nothing is written |
| PlaceReflection.ReflectionFlipsNormal | placeReflection/placeReflection.py:470-483 | for a unit normal the component of the view direction along the normal changes sign |
| PlaceReflection.ReflectionKeepsLength | placeReflection/placeReflection.py:470-483 | for a unit normal the reflection keeps the length of the view direction |
| PlaceReflection.ReflectionInvolution | placeReflection/placeReflection.py:470-483 | for a unit normal, reflecting twice gives the view direction back |
| PlaceReflection.ReflectionOfTangent | placeReflection/placeReflection.py:470-483 | a view direction along the surface is not changed |
| PlaceReflection.UpAxis | placeReflection/placeReflection.py:357-359 | the up axis is Y exactly for a track axis along Z, and Z otherwise |
| PlaceReflection.UpAxisOffTrack | placeReflection/placeReflection.py:357-362 | the up axis never runs along the track axis |
| PlaceReflection.Speed | placeReflection/placeReflection.py:309-313 | the wheel step is positive |
| PlaceReflection.DistanceFactor | placeReflection/placeReflection.py:302-321 | the factor never drops below 0; the wheel up adds the step, the wheel down takes it away down to 0, any other event keeps it |
| PlaceReflection.WheelRoundTrip | placeReflection/placeReflection.py:315-321 | one wheel step down undoes one step up with the same modifiers |
| PlaceReflection.PlacedAtDistance | placeReflection/placeReflection.py:335-345 | for unit vectors the object sits `dist * factor` from the hit point, along the reflection |
| PlaceReflection.Positioned | placeReflection/placeReflection.py:335-345 | only the location changes, and nothing before the first drag |
| PlaceReflection.Rotated | placeReflection/placeReflection.py:347-376 | the location is kept; nothing changes before the first drag; after it the object shows the track rotation in its own rotation mode |
| PlaceReflection.AxisAngleRaises | placeReflection/placeReflection.py:366-376 | as written an axis-angle object is switched to quaternions and then raises, keeping its rotation; in every other mode the two versions agree |
| PlaceReflection.AxisAngleExample | placeReflection/placeReflection.py:366-376 | an unrotated axis-angle object shows that the code as written misses the track rotation |
| PlaceReflection.Placed | placeReflection/placeReflection.py:323-333 | the location changes only with the location option, the rotation only with the rotation option, and nothing before the first drag |
| PlaceReflection.Dragged | placeReflection/placeReflection.py:254-300 | the factor is kept and a distance once fixed stays |
| PlaceReflection.CancelAsWrittenKeepsRotation | placeReflection/placeReflection.py:214-234 | as written, a quaternion-mode object keeps the rotation of the drag after a cancel |
| PlaceReflection.StepToggles | placeReflection/placeReflection.py:158-174 | the left button flips dragging, and SHIFT and CTRL events flip their own modifier and nothing else |
| PlaceReflection.DistanceFixed | placeReflection/placeReflection.py:296-297 | once the first drag has fixed the distance no event changes it |
| PlaceReflection.NothingBeforeDrag | placeReflection/placeReflection.py:144-194 | before the first drag no event other than a cancel moves or turns the object |
| PlaceReflection.WheelStep | placeReflection/placeReflection.py:177-179 | a wheel event changes only the factor and the location: WHEELUPMOUSE adds the step of the held modifiers, WHEELDOWNMOUSE takes it away and stops at 0 |
| PlaceReflection.CancelRestores | placeReflection/placeReflection.py:191-192 | a cancel puts the object back as it was at invoke and ends dragging |
| PlaceReflection.DragPlaces | placeReflection/placeReflection.py:182-183 | dragging over another object with both options places the object `dist * distFactor` from the hit along the reflection and turns it along the reflection |
| PlaceReflection.PlaceReflection.constructor | placeReflection/placeReflection.py:118-127 | the tool starts from its class attributes and records the object's pose |
| PlaceReflection.PlaceReflection.SetDistanceFactor | placeReflection/placeReflection.py:302-321 | only the factor changes, to the specified value |
| PlaceReflection.PlaceReflection.SetPosition | placeReflection/placeReflection.py:335-345 | the object is positioned as specified |
| PlaceReflection.PlaceReflection.SetRotation | placeReflection/placeReflection.py:347-376 | the object is rotated as specified |
| PlaceReflection.PlaceReflection.ApplyPlacement | placeReflection/placeReflection.py:133-142 | the object is placed as specified; `execute` does the same |
| PlaceReflection.PlaceReflection.DragPlacement | placeReflection/placeReflection.py:254-300 | the tool and the object change as the drag specifies |
| PlaceReflection.PlaceReflection.Cancel | placeReflection/placeReflection.py:222-239 | the recorded pose is put back and dragging ends |
| PlaceReflection.PlaceReflection.Toggle | placeReflection/placeReflection.py:158-174 | the toggles change the tool as specified |
| PlaceReflection.PlaceReflection.Modal | placeReflection/placeReflection.py:144-194 | the status, the tool and the object after one event are those of the specified step |
| PlaceReflection.PlaceReflection.Prepare | placeReflection/placeReflection.py:158-179 | the toggles and the wheel as specified |
| PlaceReflection.PlaceReflection.Act | placeReflection/placeReflection.py:182-194 | dragging, finishing or cancelling as specified |

## Left out

- **Floating-point numerics.**
  - Floats are modelled as exact reals, so rounding is not modelled.
  - These are not modelled:
    - the Gaussian elimination of the solve and its singularity threshold;
    - the RBF kernels, the distance matrix, norms, mean, variance and the standard deviation radius;
    - the quaternion and exponential-map helpers of the matrix module.
  - The solve's results enter `RbfSolve` as values or functions.
- **Blender host API.** Node and link creation, F-Curve lookups, bmesh and depsgraph data, selection and mode switches, and vertex-group writes are modelled only as inputs and recorded results.
  - Driver creation: `driver_add` is modelled as find-or-append. A driver with the same path and stored index gets the new target; otherwise a new curve is added.
  - Driver removal: `driver_remove` with index -1 removes every curve with the path; otherwise it removes the first match.
  - `enableDriver` looks up the drivers on the object's data block. The model takes the block it is given.
- **Smooth Weights volume mode.**
  - The kd-tree `find_range` query of volume mode is not modelled.
  - Back-face tests and the falloff curve's `pow` are not modelled.
  - Only the surface walk is modelled.
- **Smooth Weights tool events.**
  - The mouse-move smoothing and painting, the frame change, draw callbacks and timers are not modelled in `SmoothTool`.
  - The weight arithmetic of a stroke is modelled in `SmoothLimits` and `SmoothMesh`.
  - Boundary vertices that a smoothing step writes are not recorded for undo. This is the source's behaviour, and the model keeps it.
  - A flood takes each vertex's selection colour (`isSelected`) and opposite boundary vertex (`getOppositeBoundaryIndex`, a kd-tree search) as inputs. Only the flood with the selection colours, which is the one the tool runs, is modelled.
  - On finishing, the colour-to-selection copy under `keep_selection`, the removal of the colour attribute, the freeing of the bmesh and the selection mode switch are not modelled.
- SmoothMesh.Mesh.PerformSmooth: the smoothed weights of step 2 (`computeWeights` per processed vertex, lines 2275-2277 of smoothWeights.py) are an input. The model does not state that they are `SmoothLimits.ComputeWeights` of each vertex's connected vertices, nor the copy to the opposite boundary vertex (lines 2482-2485). This is because the connected vertices come from the host mesh (and from a kd-tree in volume mode), and a later vertex's copy can overwrite an earlier result. `FloodSmooth`, `LaterKeys`, `ValueKeys`, `Keys` and `EventSelector` inherit this input as `FloodInput.smoothed`.
- **Rapid SDK host queries.** These do not appear as functions:
  - `getCurrentValues`;
  - the property pickers of `getDrivingProperty` and `getDrivenProperty`;
  - `selectedObjects`, `getDriver`, `getDriven`, `getDrivenObject` and `setAnimationCurvesState`.

  Their outcomes are inputs of `RapidSdk.RapidSdkState.Execute`: which properties changed, and whether driver curves exist. Value closeness (`isClose`) is an input predicate.
- **File and process I/O.**
  - JSON files are modelled as values: their reading, writing and creation are not modelled.
  - Backup file listings from `os.listdir` are a parameter, in the order the host returns them.
  - The clock is a parameter.
  - `dev.reload` and `countLines` are not modelled.
- **Dynamic code.**
  - The `exec`-built shelf operator and panel classes are not modelled.
  - The `eval` calls of pose recall, node output items and node properties are not modelled. Only the string parts are.
- **UI.**
  - Panels, menus, draw methods, poll methods, registration and locale string tables are not modelled.
  - These Tool Shelf parts are not modelled: the script reload after a change, the resets of UI enum properties, and name collisions of text data-blocks opened by VIEW.
  - Place Reflection's status text, its option panel toggle and its panel drawing are not modelled.
- **Python text semantics.**
  - Lower- and upper-casing, `\W`, `strip` and `isspace` cover ASCII only.
  - `int()` is modelled on plain digit strings. The whitespace, "+" and underscores Python's `int()` also accepts are not modelled.
- **Tool Shelf configuration.**
  - JSON numbers are integers.
  - Configurations whose groups and commands do not have the shape the add-on writes are outside `ToolShelfConfig.ConfigShaped`. The source fails on those.
  - Command keys other than name, icon, command, tooltip, iconOnly, set, commands, valueName and value are carried along unchanged but not interpreted.
- **Place Reflection host values.**
  - The ray cast is an input (`Hit`). The measured distance, which comes from a square root, is given as `Hit.measured`.
  - `to_track_quat` and `to_euler` produce symbolic values.
  - `invoke` without a selected object is not modelled; the operator ends there.
  - A wheel event calls `set_position` whatever `location_value` is, and the model places the object there too.
- **Pose recall host parts.** These parts of `recallPoseForObject` are not modelled:
  - the host lookups;
  - the refresh through `obj.hide_render`;
  - the check that `recallTransform`'s `int(items[1])` lies within the host's value list;
  - the transform branch for node entries, which uses an undefined `obj`.
- **Call sites that do not match their callee.** The callees are modelled as defined, and these calls are not:
  - the `editable` keyword passed to `getPoseInputData`;
  - the call of the missing `upgradePoseNodes`;
  - the `propertyCount` preference that `getMaxSize` reads but the preferences do not declare;
  - the SHAPEKEY branch of `stringToObject`, which uses an undefined `obj`.
- **Graph traversal depth.** `RbfPlugs.Collect` and the queries built on it carry a `fuel` bound on the recursion depth, because a node graph can contain cycles. A traversal deeper than the fuel is cut off.
- RbfNodeTree.GetPoseNodes: the result is stated as a sorted permutation. Where poses share an index, the order that Python's stable sort keeps is not stated.
- RbfMatrix.NormalizeVector: the source divides the list in place. The model returns the divided list.
- **Exceptions.** Where the source raises an exception that nothing catches, the model returns an explicit error or failure outcome. Examples are an IndexError from a fourth custom output slot, a KeyError for a missing counterpart, a TypeError from a missing selection, and the TypeError `json.dumps` raises on an error pair in `updatePose` (the `DumpRaises` outcome of `RbfPoses.EditCache.UpdatePose`).

## Findings

| source | as written | input that shows it | evidently intended | confidence | as-written member | corrected member |
|---|---|---|---|---|---|---|
| toolShelf/config.py:186-215 | `dict(data)` is a shallow copy, so the groups migrated in place also change the backup, which is written after the migration | a configuration holding one plain command without "iconOnly" | the backup holds the configuration as it was before the migration | not executed | ToolShelfConfig.BackupWrittenAsWritten (ToolShelfConfig.BackupAsWrittenLosesOriginal, ToolShelfConfig.BackupAsWrittenExample) | ToolShelfConfig.UpdateConfig (ToolShelfConfig.BackupBeforeMigration) |
| toolShelf/__init__.py:1032-1034 | the move operators assign `CONFIG_DATA_BACKUP` as a local, so the module-level backup stays `{}`, and applying the new order (line 973) backs up `{}` | move a group up, then apply the order | applying the order backs up the configuration before the moves | not executed | ToolShelf.RunApplyOrderAsWritten (ToolShelf.ApplyOrderBackup) | ToolShelf.Shelf.ApplyOrder (ToolShelf.MoveThenApply) |
| placeReflection/placeReflection.py:214-215 | `invoke` records only `location` and `rotation_euler`, so cancel cannot put back a quaternion or axis-angle rotation | an object in quaternion mode, dragged and then cancelled | cancel restores the rotation in the object's own mode | not executed | PlaceReflection.RestoredAsWritten (PlaceReflection.CancelAsWrittenKeepsRotation) | PlaceReflection.PlaceReflection.Cancel (PlaceReflection.CancelRestores) |
| placeReflection/placeReflection.py:366-376 | for an axis-angle object the mode is switched to QUATERNION, but `order` still holds 'AXIS_ANGLE', and `to_euler('AXIS_ANGLE')` raises | an object in axis-angle mode, dragged with rotation on | the object is rotated in quaternion mode | not executed | PlaceReflection.RotatedAsWritten (PlaceReflection.AxisAngleRaises, PlaceReflection.AxisAngleExample) | PlaceReflection.PlaceReflection.SetRotation |
