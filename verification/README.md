# Klipper extras, modelled and verified

Dafny models of the algorithms and state machines in the hardware modules of FlashForge's
Klipper host software, with proofs of what they are for.  One file per component; imperative code
is modelled by classes and methods with loops, each tied to functions on values, and the lemmas
are about those functions, for all inputs and all runs.

| file | component | main results |
|---|---|---|
| ProbePath.dfy, Calibrate.dfy | zig-zag probing, faulty regions, rapid scan, rebuilding the matrix | `ProbedMatrix`, `RapidMatchesStdIff`, `SurfaceThroughProbed`, `LengthAcceptedIff` |
| Finish.dfy | from probed heights to the mesh in use | `FinishMesh`, `MeshTellsReadings` |
| RapidScan.dfy | what becomes of the heights of a rapid scan | `ScanRightIff`, `ScanSizeIff`, `ScanGoesWrong` |
| ZMesh.dfy, MeshFill.dfy | the height grid: interpolation in place and lookup | `SampleGrid`, `ProbedCellsKept`, `CalcZBilinear`, `SetZeroReference` |
| MeshShape.dfy, Polynomial.dfy | what interpolation does between the probed points | `FilledPolynomial`, `LagrangeIsPolynomial`, `BicubicBetween` |
| BedMesh.dfy | the move transform: fading, its inverse, move splitting | `TransformUndoneIff`, `MoveIsUndone`, `RisesIff`, `PathFollowsMove`, `OffsetStaysClose` |
| Buttons.dfy | the button acknowledgement protocol with 8-bit counters | `ExactlyOnceDelivery`, `RetransmitCatchesUp`, `DuplicateIgnoredIff` |
| SdcardLoop.dfy | loops in SD card files | `WellNestedFile`, `InfiniteNeverEnds`, `DesistEnds` |
| EddyProbe.dfy | windowed averages over a stream, with discarding | `StreamingEqualsFullHistory`, `MeanIsAverage`, `HeightRoundTripIff` |
| BulkSensor.dfy | clock regression, counter unwrapping, time stamps | `RegressionFindsLine`, `UnwrapIff`, `PullIsExact` |
| Neopixel.dfy | framebuffer updates | `BufferFollowsHost`, `MergeIsGood` |
| SoftwareI2C.dfy | bit-banged I2C, observed as in sections 3.1.3 to 3.1.5 of UM10204 | `WritesDecode`, `WriteObserved` |
| Homing.dfy | majority vote and retries of a slow homing move | `VoteIsConfirmation`, `RunIsExplained`, `MovesAreBounded` |
| Heaters.dfy | the limit on concurrently heating extruders | `SlotIsKept`, `HeatingWithinLimit`, `RequestIsNotLost`, `LatestRequestWinsIff` |
| EndstopPhase.dfy | circular median of trigger phases | `MedianOfTriggers`, `WindowIsCircular`, `CorrectedPhaseIsFixed` |
| LinearInterpolate.dfy | invertible piecewise linear table | `ReverseUndoesInterpolate`, `PassesThroughAllIff` |
| ShaperCalibrate.dfy | largest acceleration for a smoothing target | `FindShaperMaxAccel`, `SearchEndsIff`, `Offset180IsVariance` |
| ShaperDefs.dfy, ShaperHumps.dfy | the configured input shapers | `VibrationLeft`, `TwoHumps`, `ThreeHumps`, `ConfiguredShapersAreSpread` |
| Averages.dfy | sums and means | `MeanBalances` |
| Support.dfy | option type, real-valued helpers, binary search | |

Floats are `real`, Python integers `int`, masks to 8 and 16 bits `mod`.  Toolhead, micro-controller
and configuration are parameters or small step relations.

Promises of the code that do not hold for all inputs, each with its exact condition:

- A non-zero fade target can make get_position disagree with the last move
  (`BedMesh.TransformUndoneIff`, example `BedMesh.TargetNotUndone`).
- A mesh that exceeds the fade target by the fade distance or more makes the toolhead come down
  while it is told to rise through the fade band (`BedMesh.RisesIff`).
- With the algorithm `direct` the zero reference is subtracted twice, since both matrices are one list
  (`MeshFill.MeshObject.SetZeroReference`).
- A rapid scan skips the last of four substitutes where the direction changes
  (`ProbePath.RapidMatchesStdIff`), and its heights are then given to the wrong points unless the
  length check stops it (`RapidScan.ScanRightIff`, `RapidScan.ScanSizeIff`, example
  `RapidScan.ScanGoesWrong`).
- A list of probed heights that is too short passes the length check when only heights to be
  averaged are missing (`Calibrate.LengthAcceptedIff`, the same example).
- The interpolation table misses samples where a straight run is followed by a bend
  (`LinearInterpolate.PassesThroughAllIff`, example `LinearInterpolate.MissedSample`).
- A button message more than 128 acknowledgements old can be taken for a new one
  (`Buttons.DuplicateIgnoredIff`, example `Buttons.StaleMessageIsReplayed`).
- An older queued temperature can overwrite a newer one (`Heaters.LatestRequestWinsIff`,
  example `Heaters.StaleTargetReturns`).
- The lowest calibrated height of the eddy current probe is reported as out of range
  (`EddyProbe.HeightRoundTripIff`).

## Model

| member | source | states |
|---|---|---|
| `ProbePath.GridPointProbed` | software/klipper/extras/bed_mesh.py:908-928 | the zig-zag base points contain every grid point, each at the index its row parity and column give |
| `ProbePath.ProbeManager.GeneratePoints` | software/klipper/extras/bed_mesh.py:884-947 | fails exactly when a floored distance is below 1; otherwise the points are the zig-zag grid, the zero-reference mode follows from the configured bounds, the overshoot from the space left, and on success every faulty point and no other has substitutes |
| `ProbePath.GridInsideMesh` | software/klipper/extras/bed_mesh.py:888-908 | with distances floored to hundredths no grid point leaves the configured bounds, and the far edge misses them by less than a hundredth a step |
| `ProbePath.FlooredBounds` | software/klipper/extras/bed_mesh.py:888-891 | a floored distance is a whole number of hundredths, less than one of them below the exact one |
| `ProbePath.OvershootIs` | software/klipper/extras/bed_mesh.py:936-947 | what is added to the overshoot is the largest whole number of millimetres that the configured mesh leaves free on both sides |
| `ProbePath.ProbeManager.ProcessFaultyRegions` | software/klipper/extras/bed_mesh.py:949-1001 | the reference error occurs exactly when the probed reference lies in a region; otherwise all points up to the first one without a reachable substitute get exactly their wanted substitutes, with strictly increasing keys and 1 to 4 points each |
| `ProbePath.SubstitutesAreEdges` | software/klipper/extras/bed_mesh.py:971-1001 | the substitutes of a point, counted as a multiset, are exactly those of the four points beside, below and above it on the edges of the first region that holds it which lie inside the bed |
| `ProbePath.LowerEdgeFirst` | software/klipper/extras/bed_mesh.py:974-976 | among them the point on the lower edge comes before the one on the upper |
| `ProbePath.SubstitutesFollowTravel` | software/klipper/extras/bed_mesh.py:971-1001 | the substitutes kept for a point come in the direction its row is travelled, left to right or right to left |
| `ProbePath.OddRowsReversed` | software/klipper/extras/bed_mesh.py:964-969 | on a grid whose rows are told apart, the running flag says reversed exactly on odd rows |
| `ProbePath.RowsClose` | software/klipper/extras/bed_mesh.py:20-21 | adjacent rows compare as one exactly when the relative tolerance swallows their distance, whatever absolute tolerance up to .1 is in use |
| `ProbePath.ProbeManager.GetStdPath` | software/klipper/extras/bed_mesh.py:1006-1016 | returns the substitutes or the point itself for each base point in order, then the reference if it is probed |
| `ProbePath.ProbeManager.GenFaultyPath` | software/klipper/extras/bed_mesh.py:1051-1106 | in every branch the samples of one substituted point are all its substitutes in order, less the last of four where the direction changes |
| `ProbePath.ProbeManager.IterRapidPath` | software/klipper/extras/bed_mesh.py:1018-1049 | the points flagged as samples are exactly the rapid path's and the probed reference, whatever the travel moves are |
| `ProbePath.RapidMatchesStdIff` | software/klipper/extras/bed_mesh.py:1018-1106 | for all points and substitutes the sampled points equal the standard path if and only if no point where the direction changes has four substitutes; otherwise there are fewer |
| `ProbePath.GridDirChange` | software/klipper/extras/bed_mesh.py:1028 | on a grid the direction changes exactly at the first point of every row but the first |
| `Calibrate.BlockInPath` | software/klipper/extras/bed_mesh.py:1006-1016 | the stretch of the standard path between two starts is exactly what is probed for that base point |
| `Calibrate.BedMeshCalibrate.Correct` | software/klipper/extras/bed_mesh.py:672-699 | for a list of any length the index bookkeeping gives each base point its own entry and appends what is left |
| `Calibrate.EntriesAreMeans` | software/klipper/extras/bed_mesh.py:672-699 | with a height for every point of the path, entry i is the mean over the points probed for base point i |
| `Averages.MeanBalances` | software/klipper/extras/bed_mesh.py:690-693 | the mean is the one value from which the deviations of the heights add up to zero |
| `Calibrate.LengthAcceptedIff` | software/klipper/extras/bed_mesh.py:701-707 | the length check passes if and only if the list is no longer than the path and reaches every point that has no substitutes; a list that is short only of heights to be averaged goes unnoticed |
| `Calibrate.BuildRows` | software/klipper/extras/bed_mesh.py:709-743 | appending and front-inserting by direction and cutting at changes of y gives the matrix when all rows are told apart, and the right number of rows only then |
| `Calibrate.BedMeshCalibrate.ProbeFinalize` | software/klipper/extras/bed_mesh.py:651-769 | the whole of it, with its errors: no position for the reference, wrong length, wrong number of rows; the wrong row width never occurs |
| `Calibrate.ProbedMatrix` | software/klipper/extras/bed_mesh.py:651-769 | probing round trip for every grid, substitutes and zero-reference mode: given a height for each point of the standard path, a matrix results exactly when the rows are told apart, and each cell holds the mean of the heights measured for the base point at that cell's own grid position, less the offset |
| `Calibrate.SurfaceThroughProbed` | software/klipper/extras/bed_mesh.py:1402-1469 | from probing to lookup: with both algorithms and with 'direct' the surface takes the probed value at the position of every grid point |
| `Calibrate.SurfaceAfterReference` | software/klipper/extras/bed_mesh.py:1406-1434 | after the zero reference was set anywhere, the value at every grid point is the probed one less the height at the reference, taken twice with 'direct' |
| `Finish.GridExtent` | software/klipper/extras/bed_mesh.py:665-669 | the extent found by searching the base points is that of the first and last column and row |
| `Finish.FinishMesh` | software/klipper/extras/bed_mesh.py:651-781 | the whole of probe_finalize up to the finished mesh: a mesh object results exactly when the matrix does, spans the probed extent, is filled from the matrix, and is lowered by its height at a reference inside the mesh, twice with 'direct' |
| `Finish.MeshTellsReadings` | software/klipper/extras/bed_mesh.py:651-781 | end to end: at every grid point the finished mesh tells the mean of the heights measured there, less the offset and less the height at the reference, and tells zero at the reference unless the matrices are shared |
| `RapidScan.ScanRightIff` | software/klipper/extras/bed_mesh.py:1183-1222 | a rapid scan gives every cell the mean of the heights sampled at its own base point, for all heights, if and only if no point where the direction changes has four substitutes |
| `RapidScan.ScanSizeIff` | software/klipper/extras/bed_mesh.py:701-707 | the length check stops a scan if and only if, counted along the standard path, a base point without substitutes lies beyond the sampled heights |
| `RapidScan.HeightsRunAhead` | software/klipper/extras/bed_mesh.py:1079-1106 | the heights of a base point begin as many places early as samples were left out before it |
| `RapidScan.RightBeforeLoss` | software/klipper/extras/bed_mesh.py:672-699 | base points before the first sample left out get the mean of their own heights |
| `RapidScan.ShiftedAfterLoss` | software/klipper/extras/bed_mesh.py:672-699 | in a scan that passes the length check, an unsubstituted base point gets the height sampled as many places later as samples were left out before it |
| `RapidScan.WrongAtFirstLoss` | software/klipper/extras/bed_mesh.py:1079-1106 | heights for which the first point to lose a sample gets three quarters of what was measured there |
| `RapidScan.ScanGoesWrong` | software/klipper/extras/bed_mesh.py:1183-1222 | a mesh of nine points with two faulty regions whose 14 sampled heights pass the length check and give base point 4 the height of base point 5 |
| `RapidScan.ExampleIsAccepted` | software/klipper/extras/bed_mesh.py:949-1001 | generating the points of that mesh does not fail |
| `ZMesh.CalcZWithinCorners` | software/klipper/extras/bed_mesh.py:1424-1434 | a height looked up anywhere, on or off the mesh, stays within the four corners of its own cell |
| `ZMesh.CellHolds` | software/klipper/extras/bed_mesh.py:1452-1469 | on the mesh the cell holds the coordinate and the fraction says where in it; beyond the ends it is the outermost cell at its edge |
| `ZMesh.CalcZBilinear` | software/klipper/extras/bed_mesh.py:1424-1434 | everywhere on the mesh the height is the bilinear function of position that takes the cell's four corner values |
| `ZMesh.CalcZOnPlane` | software/klipper/extras/bed_mesh.py:1424-1469 | a grid that lies on a plane is looked up as that plane at every position on the mesh |
| `ZMesh.CalcZWithin` | software/klipper/extras/bed_mesh.py:1424-1434 | so it lies within the range of the whole grid |
| `ZMesh.AverageInRange` | software/klipper/extras/bed_mesh.py:1442-1451 | the average is within the range of the grid, but for the rounding to hundredths |
| `ZMesh.AverageIsMean` | software/klipper/extras/bed_mesh.py:1442-1451 | the average is the whole number of hundredths nearest to the mean of all cells, the even one of two |
| `ZMesh.CalcZAtNode` | software/klipper/extras/bed_mesh.py:1424-1469 | at every grid coordinate the height is the cell itself |
| `ZMesh.AtNode` | software/klipper/extras/bed_mesh.py:1452-1469 | a grid coordinate is found in its own cell with fraction 0, or in the last cell with fraction 1 |
| `ZMesh.CalcZShift` | software/klipper/extras/bed_mesh.py:1406-1434 | subtracting a constant from every cell subtracts it from the height at every position |
| `ZMesh.LagrangeAtPoint` | software/klipper/extras/bed_mesh.py:1506-1524 | the Lagrange sum takes the probed value at each probed coordinate, for any number of points |
| `MeshShape.LagrangeIsPolynomial` | software/klipper/extras/bed_mesh.py:1506-1524 | heights on any polynomial with no more coefficients than probed points are found again at every coordinate, so constants and straight lines are |
| `MeshShape.FilledPolynomial` | software/klipper/extras/bed_mesh.py:1472-1550 | every cell of the filled grid lies on the polynomial surface the probed heights lie on, if its degree along each axis is below the number of points probed there |
| `MeshShape.FilledPlane` | software/klipper/extras/bed_mesh.py:1472-1550 | in particular a flat bed, level or tilted, is filled flat in every cell |
| `MeshShape.FilledLevel` | software/klipper/extras/bed_mesh.py:1472-1620 | a level bed is filled level by both algorithms |
| `ZMesh.SplineEnds` | software/klipper/extras/bed_mesh.py:1611-1621 | the cardinal spline joins its two middle points and keeps a level stretch level |
| `MeshShape.SplineIsCubic` | software/klipper/extras/bed_mesh.py:1611-1621 | the spline is the cubic with the two middle values at its ends and there the slopes of the neighbouring differences times the tension |
| `MeshShape.BicubicBetween` | software/klipper/extras/bed_mesh.py:1526-1621 | every bicubic value between two nodes lies on the cubic with the nodes' values and slopes, a node's slope being the same from both sides |
| `MeshShape.SplineKeepsParabola` | software/klipper/extras/bed_mesh.py:1611-1621 | with tension one half values on a parabola are continued on it |
| `ZMesh.ProbedCellsKept` | software/klipper/extras/bed_mesh.py:1472-1550 | in the filled grid every probed height is found again in the cell of its node, for both algorithms and any added points |
| `MeshFill.GetCtlPts` | software/klipper/extras/bed_mesh.py:1551-1610 | the search always succeeds, within bounds, and returns the four control values of the segment that contains the index |
| `MeshFill.SearchSegment` | software/klipper/extras/bed_mesh.py:1566-1580 | the linear search stops at the segment of the index |
| `MeshFill.FractionInside` | software/klipper/extras/bed_mesh.py:1556-1576 | the fraction along a segment is strictly between 0 and 1 |
| `MeshFill.CalcLagrange` | software/klipper/extras/bed_mesh.py:1506-1524 | the double loop computes the Lagrange sum over the line's nodes, with no division by zero |
| `MeshFill.FillRow` | software/klipper/extras/bed_mesh.py:1486-1490 | filling in place leaves the nodes and makes every other cell of the row the value interpolated from them |
| `MeshFill.FillColumn` | software/klipper/extras/bed_mesh.py:1491-1497 | the same for one column, with all other columns unchanged |
| `MeshFill.SampleGrid` | software/klipper/extras/bed_mesh.py:1472-1550 | both passes together: every cell of the finished grid is the column interpolation of the row-interpolated node values, although cells are overwritten in place |
| `MeshFill.MeshObject.BuildMesh` | software/klipper/extras/bed_mesh.py:1402-1405 | with an algorithm the mesh is a fresh filled grid; with 'direct' it is the probed matrix itself |
| `MeshFill.MeshObject.CalcHeight` | software/klipper/extras/bed_mesh.py:1424-1434 | the lookup on the object is the lookup on the surface it stands for |
| `MeshFill.MeshObject.GetZRange` | software/klipper/extras/bed_mesh.py:1435-1441 | the lowest and the highest cell |
| `MeshFill.MeshObject.SetZeroReference` | software/klipper/extras/bed_mesh.py:1406-1415 | the height at the reference becomes zero if and only if the two matrices are distinct objects or it was zero already; when they are shared the offset is subtracted twice |
| `MeshFill.MeshObject.SetMeshOffsets` | software/klipper/extras/bed_mesh.py:1416-1419 | only the offsets given are replaced |
| `BedMesh.TransformUndoneIff` | software/klipper/extras/bed_mesh.py:137-227 | for any fade target, mesh height and commanded height, get_position after a move gives the commanded height back if and only if the mesh is level with the target there or the guards of its zone (below, inside, above the band) hold |
| `BedMesh.ZeroTargetUndone` | software/klipper/extras/bed_mesh.py:176-206 | with fade target 0 and a mesh height below the fade distance, every commanded height is given back |
| `BedMesh.DisabledUndone` | software/klipper/extras/bed_mesh.py:99-101 | with fading disabled the correction is undone for every height below the disabling constant |
| `BedMesh.TargetNotUndone` | software/klipper/extras/bed_mesh.py:194-203 | an accepted mesh with a non-zero target and a height in the band that is not given back |
| `BedMesh.RisesIff` | software/klipper/extras/bed_mesh.py:176-183 | a higher commanded height leads to a higher one of the toolhead, for all heights, if and only if the mesh exceeds the fade target by less than the fade distance |
| `BedMesh.PositionUndoneIff` | software/klipper/extras/bed_mesh.py:184-227 | the same for whole positions, and without a mesh always |
| `BedMesh.BedMesh.MoveIsUndone` | software/klipper/extras/bed_mesh.py:137-227 | for every reachable state of the transform with fade target 0 and fading in force, get_position after a move to p is p, at every height and anywhere on or off the mesh |
| `BedMesh.BedMesh.SetMesh` | software/klipper/extras/bed_mesh.py:137-175 | accepts or refuses by the range and average of the mesh itself; refusal leaves no mesh and target 0, acceptance bounds the mesh by the fade distance |
| `BedMesh.BedMesh.GetZFactor` | software/klipper/extras/bed_mesh.py:176-183 | the fade factor of a height, never a division by zero |
| `BedMesh.BedMesh.GetPosition` | software/klipper/extras/bed_mesh.py:184-206 | reports the position recovered from the toolhead, or the division by zero, and caches it |
| `BedMesh.BedMesh.Move` | software/klipper/extras/bed_mesh.py:207-227 | ends, never raises the splitting error, gives the toolhead exactly the planned points, and leaves it at the corrected target |
| `BedMesh.BedMesh.SendMoves` | software/klipper/extras/bed_mesh.py:215-224 | the loop that takes the next point until none is left hands over exactly the remaining points |
| `BedMesh.PathFollowsMove` | software/klipper/extras/bed_mesh.py:1291-1315 | the points sent lie on the move, at strictly increasing distances along it, each raised by the mesh offset at its own position, and the last is the raised target |
| `BedMesh.PointOnMove` | software/klipper/extras/bed_mesh.py:1281-1290 | at distance d every moving axis has gone exactly d / length of its way and the others have not moved |
| `BedMesh.PointsInOrder` | software/klipper/extras/bed_mesh.py:1281-1290 | points further along are further on every moving axis, so the points of a path are distinct and in order |
| `BedMesh.OffsetStaysClose` | software/klipper/extras/bed_mesh.py:1296-1307 | at every checkpoint, sent or passed over, the offset in force differs from the mesh's own by less than split_delta_z |
| `BedMesh.SendsOnlyChanges` | software/klipper/extras/bed_mesh.py:1302-1307 | an intermediate point is sent only where the offset has changed by split_delta_z or more since the last one |
| `BedMesh.MoveSplitter.BuildMove` | software/klipper/extras/bed_mesh.py:1266-1276 | starts a split whose remaining points are the whole path |
| `BedMesh.MoveSplitter.SetNextMove` | software/klipper/extras/bed_mesh.py:1281-1290 | fails exactly outside the move; otherwise moves the point to that distance on the move, every moving axis in proportion |
| `BedMesh.MoveSplitter.Split` | software/klipper/extras/bed_mesh.py:1291-1315 | each call returns and removes the first of the remaining points; the slice error is never raised and every call ends |
| `Buttons.ExactlyOnceDelivery` | software/klipper/extras/buttons.py:57-83 | over every run with lost, repeated and reordered messages up to 128 acknowledgements stale, the processed states are a prefix of those produced, counted by the acknowledgement count, and every callback was told, once for each change of its pins, the pins as they were then |
| `Buttons.StepKeepsInv` | software/klipper/extras/buttons.py:57-83 | every step of host, wire and micro-controller keeps the protocol's invariant |
| `Buttons.RunKeepsInv` | software/klipper/extras/buttons.py:57-83 | so does every run |
| `Buttons.HandleExtendsPrefix` | software/klipper/extras/buttons.py:57-83 | a true message at most 128 acknowledgements stale adds exactly the states not yet seen |
| `Buttons.CounterExpands` | software/klipper/extras/buttons.py:58-62 | the 8-bit counter expands to the true count if and only if it is within -128 to 127 of the host's |
| `Buttons.RetransmitCatchesUp` | software/klipper/extras/buttons.py:57-83 | after any run one fresh transmission brings the host level with everything produced |
| `Buttons.QuiescentQueueIsEmpty` | software/klipper/extras/buttons.py:69-71 | when the host is level and no acknowledgement is under way the micro-controller has nothing left to repeat |
| `Buttons.DuplicateIgnoredIff` | software/klipper/extras/buttons.py:57-67 | an old duplicate is ignored if and only if its staleness modulo 256 lies between its length and 128 |
| `Buttons.StaleMessageIsReplayed` | software/klipper/extras/buttons.py:57-67 | a run from the start in which 129 states are delivered in turn and the first message, arriving once more, is handled again |
| `Buttons.Rounds` | software/klipper/extras/buttons.py:57-83 | every series of states can be delivered one at a time, which leaves nothing under way |
| `Buttons.GroupSeesItsChanges` | software/klipper/extras/buttons.py:72-83 | callbacks do not disturb one another: each gets the changes of its own masked pins, in order |
| `Buttons.ExtractBits` | software/klipper/extras/buttons.py:78-82 | bit i of a reported value is set if and only if bit i + shift is set in both the button byte and the mask |
| `Buttons.ChangesAreTold` | software/klipper/extras/buttons.py:72-83 | for every series of states a callback is told one value for each state in which one of its pins changes, and its bits are the levels of its pins in that state |
| `Buttons.LastCallIsCurrent` | software/klipper/extras/buttons.py:72-83 | bit by bit, the last value a callback was told shows its pins as they are now; one that was never called has no active pin |
| `Buttons.McuButtons.SetupButtons` | software/klipper/extras/buttons.py:25-34 | groups registered in turn have adjoining blocks of pins that start at their shift, and exactly the pins asked for are inverted |
| `Buttons.TellsAllPins` | software/klipper/extras/buttons.py:25-34 | the values told to such a group fit its number of pins and tell all of them |
| `Buttons.TraceAppend` | software/klipper/extras/buttons.py:72-83 | how a stream of states is cut into messages makes no difference |
| `Buttons.McuButtons.HandleButtonsState` | software/klipper/extras/buttons.py:57-83 | the method's new fields are those of the message handler on values, which the lemmas are about |
| `SdcardLoop.WellNestedFile` | software/klipper/extras/sdcard_loop.py:37-63 | for every well-nested file the machine ends if and only if every loop has a count, and then it has run the structured unrolling and its stack is as before |
| `SdcardLoop.RunsUnrolling` | software/klipper/extras/sdcard_loop.py:37-63 | wherever a structured program with counted loops stands, the stack machine runs its unrolling in a known number of lines and restores its stack |
| `SdcardLoop.LoopPasses` | software/klipper/extras/sdcard_loop.py:43-63 | the remaining passes of one loop, from the top of its body |
| `SdcardLoop.ForeverPasses` | software/klipper/extras/sdcard_loop.py:52-54 | a loop without a count repeats its body any number of times and keeps its frame |
| `SdcardLoop.InfiniteNeverEnds` | software/klipper/extras/sdcard_loop.py:52-54 | a program with such a loop never reaches the end of the file |
| `SdcardLoop.WellNestedIffStructured` | software/klipper/extras/sdcard_loop.py:37-63 | the balanced texts are exactly the flattened structured programs |
| `SdcardLoop.CountedIffFinite` | software/klipper/extras/sdcard_loop.py:25-26 | a text has only positive counts exactly when its program is finite |
| `SdcardLoop.DesistedRun` | software/klipper/extras/sdcard_loop.py:64-70 | with the stack emptied, open loops finish their current pass and later loops repeat as usual |
| `SdcardLoop.DesistEnds` | software/klipper/extras/sdcard_loop.py:64-70 | desisting anywhere in a well-nested file with counted loops makes the print end |
| `SdcardLoop.SDCardLoop.LoopBegin` | software/klipper/extras/sdcard_loop.py:37-42 | pushes the count and the position after the current line, or refuses outside a file |
| `SdcardLoop.SDCardLoop.LoopEnd` | software/klipper/extras/sdcard_loop.py:43-63 | pops, repeats or leaves the loop; refuses outside a file and ignores an empty stack |
| `SdcardLoop.SDCardLoop.LoopDesist` | software/klipper/extras/sdcard_loop.py:64-70 | empties the stack, and refuses inside a file |
| `SdcardLoop.SDCardLoop.WorkHandler` | software/klipper/extras/virtual_sdcard.py:712-716 | the reader's loop runs the flat machine over the file, the next position being the one after the line unless a command moved it |
| `Neopixel.MergeIsGood` | software/klipper/extras/neopixel.py:72-81 | the merged updates are sorted, disjoint, in range, at most 20 bytes each and cover every changed byte |
| `Neopixel.GoodRunsInRange` | software/klipper/extras/neopixel.py:72-86 | every update lies within the buffer, after the one before |
| `Neopixel.ApplyRuns` | software/klipper/extras/neopixel.py:82-87 | applying such updates in turn makes the old buffer the new one, from the first changed byte on |
| `Neopixel.SendsReplaceBuffer` | software/klipper/extras/neopixel.py:68-87 | a send turns a buffer equal to the old data into the new data, for any two buffers of one length |
| `Neopixel.BufferFollowsHost` | software/klipper/extras/neopixel.py:46-87 | over every series of frames after the first full send the micro-controller's buffer equals the host's record |
| `Neopixel.NoChanges` | software/klipper/extras/neopixel.py:70-71 | equal buffers send nothing |
| `Neopixel.MergeStep` | software/klipper/extras/neopixel.py:75-81 | one turn of the backward loop, deleting in place, is one step of the merge on values |
| `Neopixel.PrinterNeoPixel.UpdateColorData` | software/klipper/extras/neopixel.py:64-67 | each byte is the rounded level of its led and colour |
| `Neopixel.ByteIsNearest` | software/klipper/extras/neopixel.py:64-67 | a byte is the level's if and only if it is the nearest to 255 times the level, upwards when two are |
| `Neopixel.PrinterNeoPixel.SendData` | software/klipper/extras/neopixel.py:68-87 | sends exactly the merged updates and records the new data; nothing when there is no change |
| `Neopixel.PrinterNeoPixel.BatchDiffs` | software/klipper/extras/neopixel.py:75-81 | the in-place loop computes the merge of all changes |
| `SoftwareI2C.WriteObserved` | software/klipper/extras/mcp4018.py:42-67 | for every message an observer of the two lines sees exactly one start and one stop, samples on rising clocks nine bits a byte, and the bus ends idle |
| `SoftwareI2C.WritesDecode` | software/klipper/extras/mcp4018.py:42-67 | any series of writes from an idle bus decodes to the address byte and message of each, in order |
| `SoftwareI2C.SamplesDecode` | software/klipper/extras/mcp4018.py:50-62 | skipping every ninth sample and reading eight bits most significant first gives the bytes back |
| `SoftwareI2C.ByteValue` | software/klipper/extras/mcp4018.py:52-57 | the eight bits tested by mask make up the byte |
| `SoftwareI2C.BytesObserved` | software/klipper/extras/mcp4018.py:50-62 | sending bytes samples their bits and ninth clocks, and never moves the data line while the clock is high |
| `SoftwareI2C.ByteObserved` | software/klipper/extras/mcp4018.py:51-62 | the same for one byte, whatever the data line was before |
| `SoftwareI2C.Master.I2cWrite` | software/klipper/extras/mcp4018.py:42-67 | emits exactly the events of the message |
| `SoftwareI2C.Master.SendByte` | software/klipper/extras/mcp4018.py:51-62 | emits one byte's events and returns the level of the data line |
| `EddyProbe.StreamingEqualsFullHistory` | software/klipper/extras/probe_eddy_current.py:209-292 | over every run the k-th answer times the number of samples ever received in the k-th window is the sum of their frequencies, at the position asked for, although messages were discarded |
| `EddyProbe.MeanIsAverage` | software/klipper/extras/probe_eddy_current.py:230-252 | what is computed is the sum of the frequencies of the readings whose time lies in the window, over their number |
| `EddyProbe.AverageBetween` | software/klipper/extras/probe_eddy_current.py:230-252 | it lies between the least and the greatest of these frequencies, so equal ones are given back |
| `EddyProbe.AverageZeroIff` | software/klipper/extras/probe_eddy_current.py:249-252 | it is 0 if and only if no reading is in the window or the frequencies add up to 0 |
| `EddyProbe.HeightOfFreq` | software/klipper/extras/probe_eddy_current.py:39-55 | a frequency below the lowest calibrated one gives 99.9, one from the highest on -99.9, and any other the height on the chord of the two around it |
| `EddyProbe.OpenRequestsEndLater` | software/klipper/extras/probe_eddy_current.py:260-292 | the oldest open request ends after every reading so far: nothing that could be answered waits |
| `EddyProbe.DroppingEarlier` | software/klipper/extras/probe_eddy_current.py:230-252 | discarding messages that end before a window does not change its average |
| `EddyProbe.AddingLater` | software/klipper/extras/probe_eddy_current.py:209-215 | nor does a message that begins after it |
| `EddyProbe.AnswerFirstKeepsInv` | software/klipper/extras/probe_eddy_current.py:230-269 | answering from what is left keeps all answers right for the whole history |
| `EddyProbe.HeightRoundTripIff` | software/klipper/extras/probe_eddy_current.py:56-73 | a height converted to a frequency and back is itself if and only if it is not the lowest calibrated height, which is reported out of range |
| `EddyProbe.EddyGatherSamples.AddMeasurement` | software/klipper/extras/probe_eddy_current.py:209-215 | queues the message, answers what can be answered, or clears when stopped |
| `EddyProbe.EddyGatherSamples.PullFreq` | software/klipper/extras/probe_eddy_current.py:230-252 | discards the leading messages that end before the window and returns the average frequency of the readings in the window |
| `EddyProbe.EddyGatherSamples.CheckSamples` | software/klipper/extras/probe_eddy_current.py:260-269 | answers requests in order while readings reach past their ends |
| `EddyProbe.EddyGatherSamples.NoteProbe` | software/klipper/extras/probe_eddy_current.py:287-292 | queues a request and answers what can be answered |
| `EddyProbe.ApplyCalibration` | software/klipper/extras/probe_eddy_current.py:39-55 | rewrites every reading in place with its height, times and frequencies unchanged, for every loaded calibration, never dividing by zero |
| `BulkSensor.RegressionFindsLine` | software/klipper/extras/bulk_sensor.py:154-193 | over every run of updates with clock pairs of one line, and of set_last_chip_clock calls, a translation exists exactly when some update was off the average, and then it is that line |
| `BulkSensor.RunStaysOnLine` | software/klipper/extras/bulk_sensor.py:162-193 | every run keeps averages, last clocks and moments on the line |
| `BulkSensor.UpdateStaysOnLine` | software/klipper/extras/bulk_sensor.py:167-177 | an update with a pair of the line keeps the regression on it, and leaves the covariance zero exactly when it was and the pair is the average |
| `BulkSensor.TranslationIsLine` | software/klipper/extras/bulk_sensor.py:182-193 | a moved regression translates by the line itself, smoothed or not |
| `BulkSensor.UnwrapIff` | software/klipper/extras/bulk_sensor.py:244-287 | 16-bit numbers are unwrapped to the true ones if and only if these are less than 65536 ahead, or within 32768 either way, of the last |
| `BulkSensor.StampsTrue` | software/klipper/extras/bulk_sensor.py:268-297 | every sample of every block gets the time of its own true number |
| `BulkSensor.ChipClockCounts` | software/klipper/extras/bulk_sensor.py:255-262 | the chip clock is one past the samples in full blocks and the further whole samples among the buffered bytes |
| `BulkSensor.PullIsExact` | software/klipper/extras/bulk_sensor.py:241-297 | when the middle of the query is on the line one count past the samples taken, one pull stamps every sample exactly and leaves a reader that goes on being exact |
| `BulkSensor.ClockSyncRegression.UpdateWith` | software/klipper/extras/bulk_sensor.py:167-177 | the fields follow the regression on values |
| `BulkSensor.ClockSyncRegression.SetLastChipClock` | software/klipper/extras/bulk_sensor.py:178-181 | moves the last clocks along the translation, or divides by zero before any movement |
| `BulkSensor.FixedFreqReader.UpdateClockWith` | software/klipper/extras/bulk_sensor.py:241-267 | the fields follow the reader on values; slow replies only advance the sequence |
| `BulkSensor.FixedFreqReader.PullSamples` | software/klipper/extras/bulk_sensor.py:268-297 | stamps all samples of the queue and moves the last chip clock to the end, by the loop index of the last block that held a sample; without any it raises |
| `EndstopPhase.MedianOfTriggers` | software/klipper/extras/endstop_phase.py:36-49 | for any triggers and any number of phases, the phase reported minimises the summed circular distance to the triggers themselves |
| `EndstopPhase.BestMinimisesDistance` | software/klipper/extras/endstop_phase.py:191-199 | the chosen window's middle is no further from the recorded triggers than any other phase |
| `EndstopPhase.WindowIsCircular` | software/klipper/extras/endstop_phase.py:191-198 | the cost of a window over the doubled history is the circular cost of its middle, for even and odd lengths |
| `EndstopPhase.RangeCoversTriggers` | software/klipper/extras/endstop_phase.py:199-209 | for an even number of phases a range is found exactly when a trigger was recorded, and it passes every recorded phase |
| `EndstopPhase.HistogramCost` | software/klipper/extras/endstop_phase.py:36-49 | the cost of the recorded history is the summed distance to the triggers it was made of |
| `EndstopPhase.HomedDeltaIff` | software/klipper/extras/endstop_phase.py:105-118 | a trigger is refused if and only if it is further than the accuracy around the circle; otherwise the correction is the shortest way; with debug output nothing is refused |
| `EndstopPhase.CorrectedPhaseIsFixed` | software/klipper/extras/endstop_phase.py:105-118 | correcting a position by the offset puts it on the endstop's phase |
| `EndstopPhase.TriggerPhaseIs` | software/klipper/extras/endstop_phase.py:36-49 | the phase is what is left of the position plus the driver's offset after whole turns |
| `EndstopPhase.GenerateStats` | software/klipper/extras/endstop_phase.py:191-209 | computes the best phase and the range, or the index error when nothing is in range |
| `EndstopPhase.PhaseCalc.CalcPhase` | software/klipper/extras/endstop_phase.py:36-49 | counts the trigger at its phase and remembers it |
| `EndstopPhase.EndstopTracker.GetHomedOffset` | software/klipper/extras/endstop_phase.py:105-118 | the first trigger of an unconfigured endstop sets its phase; later ones give the correction or are refused |
| `LinearInterpolate.ReverseUndoesInterpolate` | software/klipper/extras/adc_temperature.py:104-116 | for two or more samples with rising keys and strictly monotone values, rising or falling, and every key below the sentinel, looking the value up again gives the key |
| `LinearInterpolate.InterpolateUndoesReverse` | software/klipper/extras/adc_temperature.py:104-116 | the other way round, whenever the key found is below the sentinel |
| `LinearInterpolate.KeptIsMonotone` | software/klipper/extras/adc_temperature.py:81-103 | values that rise or fall strictly over the samples do so over the samples kept |
| `LinearInterpolate.CurveThroughKept` | software/klipper/extras/adc_temperature.py:81-107 | the curve passes through every sample kept, and both neighbouring segments agree there |
| `LinearInterpolate.DefinedBelowSentinel` | software/klipper/extras/adc_temperature.py:104-107 | a lookup fails exactly at and beyond the sentinel key |
| `LinearInterpolate.PassesThroughAllIff` | software/klipper/extras/adc_temperature.py:81-103 | every sample is on the curve if and only if no straight run of three samples is followed by a bend |
| `LinearInterpolate.MissedSample` | software/klipper/extras/adc_temperature.py:94-95 | four samples for which the condition fails and one of them is missed |
| `LinearInterpolate.Interpolator.Load` | software/klipper/extras/adc_temperature.py:81-103 | builds the table of the kept samples in one pass, or reports the error of a repeated key or too few samples; rising keys are always accepted |
| `ShaperCalibrate.FindShaperMaxAccel` | software/klipper/extras/shaper_calibrate.py:312-318 | for every spread shaper the search ends; if the smallest acceleration is acceptable the result is, and everything 1e-8 larger or more is not |
| `ShaperCalibrate.Bisect` | software/klipper/extras/shaper_calibrate.py:294-310 | the three loops together, for any downward closed property that fails somewhere |
| `ShaperCalibrate.ShrinkLeft` | software/klipper/extras/shaper_calibrate.py:298-300 | halving ends at an acceptable value |
| `ShaperCalibrate.GrowRight` | software/klipper/extras/shaper_calibrate.py:301-303 | doubling ends at the first unacceptable value |
| `ShaperCalibrate.Narrow` | software/klipper/extras/shaper_calibrate.py:304-310 | narrows to an acceptable value with an unacceptable one at most 1e-8 above |
| `ShaperCalibrate.GetShaperSmoothing` | software/klipper/extras/shaper_calibrate.py:210-228 | the accumulating loops compute the larger of the two offset sums |
| `ShaperCalibrate.Offset180IsVariance` | software/klipper/extras/shaper_calibrate.py:216-225 | the 180 degree offset is half the acceleration times the variance of the impulse times, in moments |
| `ShaperCalibrate.Offset90BothWays` | software/klipper/extras/shaper_calibrate.py:220-225 | the 90 degree offsets of a shaper and of the same shaper run backwards add up to its 180 degree offset and the corner velocity times the mean distance from the shift |
| `ShaperCalibrate.TwoImpulses` | software/klipper/extras/shaper_calibrate.py:210-228 | the smoothing of any two impulses in closed form |
| `ShaperCalibrate.SmoothingMonotone` | software/klipper/extras/shaper_calibrate.py:210-228 | smoothing never falls as the acceleration grows, for every shaper with non-negative weights |
| `ShaperCalibrate.SmoothingUnbounded` | software/klipper/extras/shaper_calibrate.py:210-228 | a spread shaper's smoothing passes every target |
| `ShaperCalibrate.NoSpreadNoSmoothing` | software/klipper/extras/shaper_calibrate.py:210-228 | a shaper whose weighted impulses share one time has none at any acceleration |
| `ShaperDefs.ConfiguredShapersAreSpread` | software/klipper/extras/shaper_defs.py:17-102 | every shaper that can be configured has non-negative weights and is spread, whatever the damping and the frequency |
| `ShaperCalibrate.SearchEndsIff` | software/klipper/extras/shaper_calibrate.py:294-318 | the doubling loop meets an unacceptable acceleration after some number of passes if and only if the shaper is spread |
| `ShaperDefs.VibrationLeft` | software/klipper/extras/shaper_defs.py:17-102 | at the frequency it is made for and with any damping, the impulses of every configured shaper cancel, or leave exactly one twentieth of the vibration for ei and 3hump_ei |
| `ShaperHumps.TwoHumps` | software/klipper/extras/shaper_defs.py:60-75 | without damping and at any frequency between its two zeros the 2hump_ei shaper leaves at most a twentieth of the vibration, and at the hump exactly that |
| `ShaperHumps.TwoHumpEquation` | software/klipper/extras/shaper_defs.py:66-68 | the first weight, computed by way of a cube root, solves the cubic equation of the hump |
| `ShaperHumps.ThreeHumps` | software/klipper/extras/shaper_defs.py:77-92 | the same for 3hump_ei, at any frequency up to where it leaves a twentieth for the last time; at its own frequency and at its humps it leaves exactly that |
| `ShaperDefs.DampedWeights` | software/klipper/extras/shaper_defs.py:17-102 | each weight is the undamped one times a power of the damping per impulse |
| `ShaperDefs.EvenlySpaced` | software/klipper/extras/shaper_defs.py:17-102 | impulses are half a period apart, those of mzv three eighths |
| `Homing.VoteIsConfirmation` | software/klipper/extras/homing.py:383-437 | the nested group search accepts if and only if every stepper's last sample is within tolerance of another, and disagrees if and only if some stepper has no two alike |
| `Homing.BestOfThree` | software/klipper/extras/homing.py:388-402 | what the first longest group of three values holds |
| `Homing.MovesAreBounded` | software/klipper/extras/homing.py:324-437 | with n retries at most 3 (n + 1) slow homing moves are made, whatever the machine does |
| `Homing.ResultIsAgreed` | software/klipper/extras/homing.py:324-443 | an accepted position is that of the last move, confirmed on every stepper by one of the two samples kept with it; otherwise the retries were spent or the machine failed |
| `Homing.RunIsExplained` | software/klipper/extras/homing.py:324-443 | every run goes attempt by attempt by rules stated on the samples alone: what is kept after each attempt, what costs a retry, which verdict ends it with which error, and that it ends for want of a retry only when all are spent |
| `Homing.AcceptedAtOnceIff` | software/klipper/extras/homing.py:383-437 | three triggered moves are accepted at once if and only if the last is confirmed on every stepper |
| `Homing.HomingState.HomeSlowly` | software/klipper/extras/homing.py:324-443 | the loop with its flags and retries has the outcome of the recursive definition and stores the accepted position |
| `Homing.Decide` | software/klipper/extras/homing.py:384-437 | the loop over the steppers reaches the verdict of the vote |
| `Homing.FindBestGroup` | software/klipper/extras/homing.py:388-402 | the nested loops find the first longest group |
| `Heaters.RunKeepsInv` | software/klipper/extras/heaters.py:285-471 | over every run the active list never exceeds the limit and no heater waits twice |
| `Heaters.StepKeepsInv` | software/klipper/extras/heaters.py:285-471 | every request, tick, turn-off and reading keeps that |
| `Heaters.TickKeepsCold` | software/klipper/extras/heaters.py:392-399 | after a tick the active list begins with exactly those earlier entries, in order, whose reading is more than 5 below target, and goes on with entries taken from the front of the queue |
| `Heaters.SlotIsKept` | software/klipper/extras/heaters.py:392-408 | over every run an extruder that has a slot keeps it until a tick finds its reading within 5 of its target, it is cancelled, or all are turned off |
| `Heaters.HeatingWithinLimit` | software/klipper/extras/heaters.py:392-408 | so however long ago each began, at most limit extruders are on their way to their targets |
| `Heaters.TargetNeedsSlot` | software/klipper/extras/heaters.py:285-471 | no step gives an extruder a new positive target without a slot |
| `Heaters.OthersAtOnce` | software/klipper/extras/heaters.py:409-419 | a heater whose name does not begin with extruder is set at once, or refused by its range, and neither list changes |
| `Heaters.RequestIsNotLost` | software/klipper/extras/heaters.py:285-471 | over every run a queued request is still waiting, or it was waiting until a step that took it off the queue by starting it with its own target, replacing it, cancelling it or raising on its own target |
| `Heaters.WaitOrEnd` | software/klipper/extras/heaters.py:285-471 | the same for one step |
| `Heaters.RaisedTickLosesOne` | software/klipper/extras/heaters.py:392-408 | a tick that raises loses the first out-of-range entry and no other: those ahead of it were started with their own targets, those behind it wait in order |
| `Heaters.StepKeepsOrder` | software/klipper/extras/heaters.py:285-471 | waiting heaters never overtake one another, also when a step raises |
| `Heaters.StartServesFront` | software/klipper/extras/heaters.py:392-408 | a tick serves the queue from the front as far as the free slots reach or up to the first out-of-range target, each entry with its own target, and changes nothing else |
| `Heaters.TickFillsSlots` | software/klipper/extras/heaters.py:392-408 | after a tick that returns nothing waits or every slot is taken |
| `Heaters.LatestRequestWinsIff` | software/klipper/extras/heaters.py:409-471 | a request decides its heater's target if and only if it is not applied at once past a waiting entry of the same heater with another target |
| `Heaters.StaleEntryOverwrites` | software/klipper/extras/heaters.py:392-408 | a waiting entry at the front overwrites the target of its heater at the next tick with a free slot |
| `Heaters.StaleTargetReturns` | software/klipper/extras/heaters.py:392-471 | a run from the start, for any two extruders and targets, after which the newer target of a heater is overwritten by its older one |
| `Heaters.CancelFreesSlotIff` | software/klipper/extras/heaters.py:452-471 | cancelling clears target and queue, and frees the slot if and only if the heater held no more than one |
| `Heaters.PrinterHeaters.SetTemperature` | software/klipper/extras/heaters.py:409-471 | the method has the effect of the request on values, with the range error |
| `Heaters.PrinterHeaters.UpsertPendingHeater` | software/klipper/extras/heaters.py:285-290 | replaces the heater's entry in place or appends one |
| `Heaters.PrinterHeaters.CheckHeaterQueue` | software/klipper/extras/heaters.py:392-408 | the method has the effect of the tick on values |
| `Heaters.PrinterHeaters.TurnOffAllHeaters` | software/klipper/extras/heaters.py:347-352 | clears both lists and every target |
| `Heaters.PrinterHeaters.SetTemp` | software/klipper/extras/heaters.py:117-123 | refuses a non-zero target out of range and changes nothing then |

## Left out

- Floating point rounding, `round` and number formatting: arithmetic is exact on reals; square roots (the length of a move, the root of two in the smoothing) are parameters.
- `sorted`, `sort` and `bisect.bisect` are taken as given, by functions with the results they promise.
- The micro-controller firmware: its half of the button protocol is a step relation with an eight entry queue and acknowledgements that arrive in order; its neopixel buffer and the I2C observer are likewise functions of what it is sent.
- Button bytes are sets of bit positions, so no bit vector arithmetic is modelled; ADC buttons and rotary encoders are not part of this model.
- SdcardLoop.SDCardLoop.WorkHandler: positions are line numbers instead of byte offsets, and the rewriting of G-code while printing, pausing and shutdown of virtual_sdcard.py are not modelled beyond a budget of lines.
- Neopixel: the query that makes the LEDs light up, its retries and LED template priorities.
- SoftwareI2C: acknowledge bits, because the master does not release the data line; rise and fall times.
- EddyProbe: waiting for samples with a timeout, pull_probed's error texts, and the calibration moves themselves; runs have ordered messages and window starts that do not decrease.
- EddyProbe.HeightRoundTripIff: for the strictly monotone calibrations that calibrating produces; a stored one is not checked on loading.
- BulkSensor: starting and stopping clients (BatchBulkHelper), web requests and unpacking of bytes; a block holds values.
- Homing: the first fast move, retract moves, delays between retries, and home_rails, whose retry check raises after its first failed retry; the machine's answers are an arbitrary sequence of attempts.
- Heaters: requests that wait for the temperature, control loops and PWM; a heater's name is its key in the table.
- EndstopPhase: reading the driver's phase offset and converting configured phases; align_endstop.
- ShaperCalibrate and ShaperDefs: spectra, fitting and choosing shapers, which is numpy code; the exponential, the square roots and the cube root of the shaper definitions are parameters with their defining equations.
- ShaperHumps.TwoHumps: stated without damping, where the response to another frequency has a closed form.
- LinearInterpolate: the sensor tables themselves and the conversions between voltage, resistance and temperature.
- MeshFill.SampleGrid: one method stands for both samplers, whose loops differ only in the value computed between nodes; rows are sequences inside a shared matrix object.
- BedMesh: profiles, status reports, logging and BED_MESH_OFFSET, of which only the offsets of the surface and of the tool are kept.
- ProbePath.ProbeManager.IterRapidPath: the points of an arc between rows are an arbitrary function, because they are trigonometry; all other travel points are as in the source.
- ProbePath and Calibrate: round beds, adaptive meshes, and the overlap test of configured regions.
- ProbePath.OddRowsReversed: rows must be told apart, that is, a row's y must be less than 1e9 times the row distance; the same condition appears as Apart elsewhere.
- RapidScan: the time windows in which samples are collected; each sampled point has one height.
- Calibrate: x and y of probed positions, which reach only the log, and saving the profile.
- gcode_move, bed_tilt, skew_correction, exclude_object, pause_resume, firmware_retraction and idle_timeout: linear transforms and simple flag machines, which would add easy members.
