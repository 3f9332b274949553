# ReaK planning queries, scalar matrices and exact balancing in Dafny

This project models a core of the ReaK robotics library and proves properties of it.

- **Point-to-point planning query** (`planning_queries.hpp`): the query object that a sampling-based planner reports solutions to.
  - It keeps a cost-ordered map of solution paths.
  - It answers the best solution distance and whether to keep going.
  - It offers eight registration routines. They cover basic and optimal motion graphs, steerable and non-steerable spaces, and single trees and two joined trees.
  - Each routine walks a chain of in-edges or predecessors back to its root, collecting waypoints and, for basic graphs, the metric length.
  - It stores the path only when the walk reached the root and the cost beats the best one.
- **Scalar matrix** (`mat_alg_scalar.hpp`): an `n x n` matrix equal to `q` times the identity, with its operators, dimension checks and errors.
- **Exact power-of-two balancing** (`mat_balance.hpp`): the integer-exponent `balance` of a square matrix and the four routines that apply a vector of base-2 exponents, or undo it.
- **Constant trajectory** (`constant_trajectory.hpp`): a trajectory that stays at its start point for all time, with iterators that never move.
- **Chaser/target scenario data** (`chaser_target_model_data.cpp`): the incremental building of the proximity-query pairs between the chaser, the target and the environment models.
- **Free-floating platform** (`free_floating_platform.cpp`): the resynchronisation of the end-effector frames with the end-effector poses, and the parts of the motion routines that use it.

Modules and files:

- `costs.dfy` (`Costs`): costs as reals extended with `Inf`.
- `solution_maps.dfy` (`SolutionMaps`): the solution map as a key-sorted sequence. `Insert` mirrors `std::map::operator[]` assignment.
- `motion_graphs.dfy` (`MotionGraphs`): motion graphs as maps from vertex ids to in-edges, predecessor, accumulated distance and position. It also gives the three walks as specification functions.
- `path_walks.dfy` (`PathWalks`): the walking loops as methods proved against those functions.
- `registration.dfy` (`Registration`): the eight routines.
- `planning_queries.dfy` (`PlanningQueries`): the query class.
- `scalar_matrix.dfy` (`ScalarMatrices`): the scalar matrix as a value and as an object changed in place.
- `powers_of_two.dfy` (`PowersOfTwo`): `ldexp(x, e)` as `x * 2^e` on reals.
- `mat_balance.dfy` (`MatBalance`): balancing over `array2<real>`.
- `constant_trajectory.dfy` (`ConstantTrajectories`), `chaser_target.dfy` (`ChaserTargetData`) and `free_floater.dfy` (`FreeFloatingPlatforms`): the other three cores.

Modelling choices:

- Distance metrics are function parameters.
- Steering (`steer_position_toward`) is a function parameter that returns the steer record.
- A steer record is the sequence of its intermediate points in travel order.
- A null `shared_ptr` is `None`.
- Thrown `std::range_error`s are `Err` values carrying the source's message.

## Model

| member | source | states |
|---|---|---|
| Costs.LessIsStrictTotalOrder | src/ReaK/ctrl/path_planning/planning_queries.hpp:839 | Cost comparison, with `Inf` above every finite cost, is a strict total order. The solution map's ordering rests on this. |
| SolutionMaps.Insert | src/ReaK/ctrl/path_planning/planning_queries.hpp:355-356 | `solutions[cost] = path` keeps the keys strictly increasing and stores the new entry. It keeps every old entry with a different key and drops the old entry with an equal key. The size grows by one exactly when the key was new. |
| SolutionMaps.BestCost | src/ReaK/ctrl/path_planning/planning_queries.hpp:846-851 | The map is empty exactly when the result is `Inf` and `Inf` is not a stored key, so a stored `+inf` key is reported like any other. Otherwise the result is a stored key and is no larger than any other. |
| SolutionMaps.PutBelowBest | src/ReaK/ctrl/path_planning/planning_queries.hpp:399-401 | Inserting a cost below the current best puts the entry first. That cost becomes the best and the map grows by one. |
| SolutionMaps.SolutionMap.Clear | src/ReaK/ctrl/path_planning/planning_queries.hpp:864-866 | `solutions.clear()` leaves an empty, valid map. |
| SolutionMaps.SolutionMap.Put | src/ReaK/ctrl/path_planning/planning_queries.hpp:355-356 | The map after the assignment is `Insert` of the old map. |
| PlanningQueries.BaseBestSolutionDistance | src/ReaK/ctrl/path_planning/planning_queries.hpp:96-98 | The base query's best distance is never finite. |
| PlanningQueries.BaseKeepGoing | src/ReaK/ctrl/path_planning/planning_queries.hpp:104 | The base query always keeps going. |
| PlanningQueries.P2PQuery.constructor | src/ReaK/ctrl/path_planning/planning_queries.hpp:929-934 | Stores start, goal and result limit, with an empty, fresh solution map. |
| PlanningQueries.P2PQuery.GetBestSolutionDistance | src/ReaK/ctrl/path_planning/planning_queries.hpp:846-851 | `Inf` when no solution is stored. Otherwise it is one of the stored costs and is no larger than any other. |
| PlanningQueries.P2PQuery.KeepGoing | src/ReaK/ctrl/path_planning/planning_queries.hpp:857-859 | True exactly when fewer than `max_num_results` solutions are stored. |
| PlanningQueries.P2PQuery.GetStartPosition | src/ReaK/ctrl/path_planning/planning_queries.hpp:868 | Returns the start position given at construction. |
| PlanningQueries.P2PQuery.ResetSolutionRecords | src/ReaK/ctrl/path_planning/planning_queries.hpp:864-866 | Empties the map. Afterwards the best distance is `Inf` and the query keeps going exactly when the limit is positive. |
| PlanningQueries.P2PQuery.RegisterSolutionFromBasicMg | src/ReaK/ctrl/path_planning/planning_queries.hpp:887-894 | Forwards to the basic single-tree routine with this query's space and goal position: the path from the start vertex through the goal vertex to `goal_pos` is stored in front, under `goal_distance` plus the walked lengths, exactly when the walk reached the start vertex and that cost beats the best; otherwise nothing changes. The best distance never increases. |
| PlanningQueries.P2PQuery.RegisterSolutionFromOptimalMg | src/ReaK/ctrl/path_planning/planning_queries.hpp:879-886 | Forwards to the optimal single-tree routine with this query's space and goal position: an infinite cost, or one that does not beat the best, leaves the map unchanged; otherwise the path through the goal vertex to `goal_pos` is stored under `accum[goal] + goal_distance` exactly when the walk was complete. The best distance never increases. |
| PlanningQueries.P2PQuery.RegisterJoiningPointFromBasicMg | src/ReaK/ctrl/path_planning/planning_queries.hpp:906-916 | Forwards to the basic joined routine with this query's space: the joined path is stored under `joining_distance` plus both walks' lengths exactly when both walks reached their roots and the cost beats the best; otherwise nothing changes. The best distance never increases. |
| PlanningQueries.P2PQuery.RegisterJoiningPointFromOptimalMg | src/ReaK/ctrl/path_planning/planning_queries.hpp:895-905 | Forwards to the optimal joined routine with this query's space: a cost that is infinite or does not beat the best leaves the map unchanged; otherwise the joined path is stored under `accum1[join1] + accum2[join2] + joining_distance` exactly when both walks were complete. The best distance never increases. |
| MotionGraphs.ReversedConcat | src/ReaK/ctrl/path_planning/planning_queries.hpp:582-591 | Reversal turns a concatenation around. Appending a reversed steer record after a reversed walk is the reversal of the whole. |
| MotionGraphs.InEdgeWalkShape | src/ReaK/ctrl/path_planning/planning_queries.hpp:392-397 | The first-in-edge walk stops at the root or at a vertex without in-edges. The non-steerable waypoints in front are the positions of the chain's ancestors, farthest first, ending where the walk stopped. |
| MotionGraphs.PredPrefixShape | src/ReaK/ctrl/path_planning/planning_queries.hpp:510-513 | The predecessor walk reaches the root and no earlier vertex is the root. Its waypoints are the ancestors' positions, the root's first. |
| MotionGraphs.FirstEdgeFrom | src/ReaK/ctrl/path_planning/planning_queries.hpp:455-456 | The in-edge scan stops at the first edge whose source is the wanted vertex, or at the end when none is. |
| MotionGraphs.MatchedWalkShape | src/ReaK/ctrl/path_planning/planning_queries.hpp:452-463 | A steerable optimal walk that was not cut short ended at the root. Its waypoints start with the root's position. |
| MotionGraphs.BrokenWalkCanEndAtRoot | src/ReaK/ctrl/path_planning/planning_queries.hpp:452-458 | A walk cut short at a vertex with no in-edge from its predecessor still stops at the root when that predecessor is the root. |
| PathWalks.PrependSteerRecord | src/ReaK/ctrl/path_planning/planning_queries.hpp:338-339 | `push_front` from the record's end to its beginning puts the whole record, in order, in front of the waypoints. |
| PathWalks.AppendSteerRecordReversed | src/ReaK/ctrl/path_planning/planning_queries.hpp:586-587 | `push_back` from the record's end to its beginning appends the record reversed. |
| PathWalks.FindInEdgeFrom | src/ReaK/ctrl/path_planning/planning_queries.hpp:455-456 | The scanning loop returns `FirstEdgeFrom`. |
| PathWalks.WalkInEdgesBackward | src/ReaK/ctrl/path_planning/planning_queries.hpp:344-353 | The loop ends where the in-edge walk ends. It puts the walk's waypoints in front and adds the walk's length to the total. |
| PathWalks.WalkInEdgesForward | src/ReaK/ctrl/path_planning/planning_queries.hpp:582-591 | The goal-side loop ends where the walk ends. It appends the walk's waypoints reversed and adds its length. |
| PathWalks.WalkPredecessorsBackward | src/ReaK/ctrl/path_planning/planning_queries.hpp:510-513 | The predecessor loop puts the predecessor prefix in front of the waypoints. |
| PathWalks.WalkPredecessorsForward | src/ReaK/ctrl/path_planning/planning_queries.hpp:792-795 | The goal-side predecessor loop appends the prefix reversed. |
| PathWalks.WalkMatchedEdgesBackward | src/ReaK/ctrl/path_planning/planning_queries.hpp:452-463 | The matched-edge loop ends where the matched walk ends. It reports whether the walk was cut short and puts the collected waypoints in front. |
| PathWalks.WalkMatchedEdgesForward | src/ReaK/ctrl/path_planning/planning_queries.hpp:724-736 | The goal-side matched loop, appending the collected waypoints reversed. |
| Registration.RegisterBasicSolutionPath | src/ReaK/ctrl/path_planning/planning_queries.hpp:307-405 | The cost is `goal_distance` plus each walked edge's length. The path is stored and returned exactly when the walk ended at the start and the cost beats the best. Otherwise nothing is stored and null is returned. |
| Registration.RegisterOptimalSolutionPath | src/ReaK/ctrl/path_planning/planning_queries.hpp:409-521 | A cost `distance_accum[goal] + goal_distance` that is infinite or not below the best returns null with the map unchanged. Otherwise the path is stored exactly when the walk is complete. |
| Registration.RegisterBasicJoinedPath | src/ReaK/ctrl/path_planning/planning_queries.hpp:529-657 | Joined basic trees: stored exactly when both walks reach their roots and `joining_distance` plus both walks' lengths beats the best. |
| Registration.RegisterOptimalJoinedPath | src/ReaK/ctrl/path_planning/planning_queries.hpp:661-803 | Joined optimal trees: `accum1[join1] + accum2[join2] + joining_distance` is priced first. If it passes, the path is stored exactly when both walks are complete: reached their roots without breaking off. This is the corrected test; the test as written is in "## Findings". |
| Registration.WalkBasicJoinedTrees | src/ReaK/ctrl/path_planning/planning_queries.hpp:555-589 | The two first-in-edge walks of the joined basic routines build exactly the joined path (start-tree walk, both joining points with the joining steer record, then the goal-tree walk reversed); the total is `joining_distance` plus both walks' lengths and the ends are where the walks stop. |
| Registration.WalkOptimalJoinedTrees | src/ReaK/ctrl/path_planning/planning_queries.hpp:699-737 | The two walks of the joined optimal routines build exactly the specified joined path and report whether both were complete. |
| Registration.RegistrationLowersBest | src/ReaK/ctrl/path_planning/planning_queries.hpp:434-438 | An outcome keeps the map sorted and evicts nothing. It grows the map by one exactly when a path is returned. The best distance never increases and becomes the new cost on acceptance. |
| Registration.BasicSolutionPathOrder | src/ReaK/ctrl/path_planning/planning_queries.hpp:387-396 | A non-steerable basic path is the start position, the chain in order, the goal vertex's position, then `goal_pos` exactly when `goal_distance > 0`. |
| Registration.OptimalSolutionPathOrder | src/ReaK/ctrl/path_planning/planning_queries.hpp:505-513 | A non-steerable optimal path is the predecessor chain from the start, the goal vertex's position, then `goal_pos` exactly when `goal_distance > 0`. |
| Registration.OptimalJoinedPathOrder | src/ReaK/ctrl/path_planning/planning_queries.hpp:783-795 | A joined non-steerable path runs from the start to `join1`, then from `join2` to the goal. |
| Registration.OptimalSteeredPathStartsAtStart | src/ReaK/ctrl/path_planning/planning_queries.hpp:450-467 | A complete steerable optimal walk yields a path whose first waypoint is the start position. |
| Registration.AsWrittenAcceptsPartialPath | src/ReaK/ctrl/path_planning/planning_queries.hpp:452-467 | As written, the end-vertex test accepts a walk cut short at a vertex whose predecessor is the start. The corrected test rejects it. |
| Registration.AsWrittenJoinedAcceptsPartialPath | src/ReaK/ctrl/path_planning/planning_queries.hpp:709-743 | As written, the joined test accepts when both walks end at their roots, even when the start tree's walk broke off at a vertex whose predecessor is the start. The stored path then does not contain the start position. The corrected test rejects it. |
| ScalarMatrices.Element | src/ReaK/core/lin_alg/mat_alg_scalar.hpp:173-178 | Read access gives `q` on the diagonal and 0 off it. |
| ScalarMatrices.Empty | src/ReaK/core/lin_alg/mat_alg_scalar.hpp:93 | The default matrix has dimension 0 and only zero entries. |
| ScalarMatrices.Sized | src/ReaK/core/lin_alg/mat_alg_scalar.hpp:98-99 | The sized constructor has the given dimension and the fill on the diagonal. |
| ScalarMatrices.Identity | src/ReaK/core/lin_alg/mat_alg_scalar.hpp:104-105 | The identity constructor has 1 on the diagonal exactly when the flag is set, and 0 elsewhere. |
| ScalarMatrices.DiagonalSumOfScalar | src/ReaK/core/lin_alg/mat_alg_scalar.hpp:420-422 | The sum of the first `n` diagonal entries is `n * q`. |
| ScalarMatrices.Trace | src/ReaK/core/lin_alg/mat_alg_scalar.hpp:420-422 | `trace(M)`, computed as `rowCount * q`, is the sum of the diagonal elements. |
| ScalarMatrices.FromGeneral | src/ReaK/core/lin_alg/mat_alg_scalar.hpp:124-130 | Construction from a general matrix takes the smaller of its two dimensions. |
| ScalarMatrices.FromGeneralKeepsTrace | src/ReaK/core/lin_alg/mat_alg_scalar.hpp:121-130 | The scalar matrix built from a general one has the general matrix's trace. |
| ScalarMatrices.Add | src/ReaK/core/lin_alg/mat_alg_scalar.hpp:341-345 | Fails with the mismatch error exactly when the dimensions differ. Otherwise every entry is the entrywise sum and the dimension is kept. |
| ScalarMatrices.Sub | src/ReaK/core/lin_alg/mat_alg_scalar.hpp:361-365 | Fails exactly on a dimension mismatch. Otherwise every entry is the entrywise difference. |
| ScalarMatrices.Neg | src/ReaK/core/lin_alg/mat_alg_scalar.hpp:351-353 | Every entry is negated and the dimension is kept. |
| ScalarMatrices.Transpose | src/ReaK/core/lin_alg/mat_alg_scalar.hpp:390-392 | Entry `(i, j)` of the result is entry `(j, i)` of the argument, and the dimension is kept. |
| ScalarMatrices.AddThenSub | src/ReaK/core/lin_alg/mat_alg_scalar.hpp:341-365 | Subtracting what was added gives back the original matrix. |
| ScalarMatrices.GetBlock | src/ReaK/core/lin_alg/mat_alg_scalar.hpp:379-383 | Fails exactly when `offset + size > rowCount`. Otherwise the block has the given size and agrees with the matrix on the shifted entries. |
| ScalarMatrices.RowDotPicksDiagonal | src/ReaK/core/lin_alg/mat_alg_scalar.hpp:495-502 | Row `i` times a vector is `q * v[i]`, since only the diagonal term survives. |
| ScalarMatrices.ColDotPicksDiagonal | src/ReaK/core/lin_alg/mat_alg_scalar.hpp:511-518 | The vector times column `j` is `v[j] * q`. |
| ScalarMatrices.MulVector | src/ReaK/core/lin_alg/mat_alg_scalar.hpp:495-502 | Fails exactly when the vector's size differs from the dimension. Otherwise entry `i` is row `i` times the vector. |
| ScalarMatrices.VectorMul | src/ReaK/core/lin_alg/mat_alg_scalar.hpp:511-518 | Fails exactly on a size mismatch. Otherwise entry `j` is the vector times column `j`. |
| ScalarMatrices.ScalarMatrix.constructor | src/ReaK/core/lin_alg/mat_alg_scalar.hpp:98-99 | The object holds the sized matrix. |
| ScalarMatrices.ScalarMatrix.GetRowCount | src/ReaK/core/lin_alg/mat_alg_scalar.hpp:209 | Returns the single dimension. |
| ScalarMatrices.ScalarMatrix.SetElement | src/ReaK/core/lin_alg/mat_alg_scalar.hpp:159-164 | Writing the diagonal sets `q`. Writing off the diagonal fails with the off-diagonal error and changes nothing. |
| ScalarMatrices.ScalarMatrix.SetRowCount | src/ReaK/core/lin_alg/mat_alg_scalar.hpp:217-219 | Sets the single dimension and keeps `q`. |
| ScalarMatrices.ScalarMatrix.SetColCount | src/ReaK/core/lin_alg/mat_alg_scalar.hpp:234-236 | Setting the column count sets the same single dimension. |
| ScalarMatrices.ScalarMatrix.Resize | src/ReaK/core/lin_alg/mat_alg_scalar.hpp:249-251 | Resizing takes the row count of the pair and ignores the column count. |
| ScalarMatrices.ScalarMatrix.Swap | src/ReaK/core/lin_alg/mat_alg_scalar.hpp:141-145 | The two matrices exchange their values. |
| ScalarMatrices.ScalarMatrix.AddAssign | src/ReaK/core/lin_alg/mat_alg_scalar.hpp:288-293 | The new value is `Add` of the old one, or the mismatch error with nothing changed. |
| ScalarMatrices.ScalarMatrix.SubAssign | src/ReaK/core/lin_alg/mat_alg_scalar.hpp:301-306 | The new value is `Sub` of the old one, or the mismatch error with nothing changed. |
| ScalarMatrices.ScalarMatrix.ScaleAssign | src/ReaK/core/lin_alg/mat_alg_scalar.hpp:313-316 | Every entry is multiplied by the scalar and the dimension is kept. |
| ScalarMatrices.ScalarMatrix.MulAssign | src/ReaK/core/lin_alg/mat_alg_scalar.hpp:324-329 | Fails exactly on a dimension mismatch, leaving the value unchanged. Otherwise every entry is the entrywise product. |
| PowersOfTwo.Pow2Add | src/ReaK/core/lin_alg/mat_balance.hpp:186-192 | `2^a * 2^b == 2^(a+b)` for all integer exponents, so successive exact scalings compose. |
| PowersOfTwo.LdexpAdd | src/ReaK/core/lin_alg/mat_balance.hpp:171-183 | `ldexp(ldexp(x, a), b) == ldexp(x, a + b)`. |
| PowersOfTwo.LdexpRoundTrip | src/ReaK/core/lin_alg/mat_balance.hpp:478-487 | `ldexp(ldexp(x, e), -e) == x`, because power-of-two scaling is exact. |
| PowersOfTwo.LdexpAbs | src/ReaK/core/lin_alg/mat_balance.hpp:157-165 | The magnitude of a scaled entry is the scaled magnitude. |
| MatBalance.RowScalingRoundTrip | src/ReaK/core/lin_alg/mat_balance.hpp:478-487 | Scaling the rows by `D` and then by `-D` restores the matrix exactly, in either order. |
| MatBalance.ColScalingRoundTrip | src/ReaK/core/lin_alg/mat_balance.hpp:504-513 | Scaling the columns by `D` and then by `-D` restores the matrix exactly, in either order. |
| MatBalance.ScaleRowsInPlace | src/ReaK/core/lin_alg/mat_balance.hpp:431-433 | The double loop leaves row `i` scaled by `2^D[i]`. |
| MatBalance.ScaleColsInPlace | src/ReaK/core/lin_alg/mat_balance.hpp:457-459 | The double loop leaves column `j` scaled by `2^D[j]`. |
| MatBalance.ApplyRightBalExp | src/ReaK/core/lin_alg/mat_balance.hpp:425-434 | Fails with the factor error exactly when the row count differs from `|D|`, leaving the matrix unchanged. Otherwise row `i` is scaled by `2^D[i]`. |
| MatBalance.ApplyLeftBalExp | src/ReaK/core/lin_alg/mat_balance.hpp:451-460 | Fails exactly when the column count differs from `|D|`. Otherwise column `j` is scaled by `2^D[j]`. |
| MatBalance.ApplyRightBalInvExp | src/ReaK/core/lin_alg/mat_balance.hpp:478-487 | Fails exactly when the row count differs from `|D|`. Otherwise row `i` is scaled by `2^-D[i]`, which undoes `ApplyRightBalExp`. |
| MatBalance.ApplyLeftBalInvExp | src/ReaK/core/lin_alg/mat_balance.hpp:504-513 | Fails exactly when the column count differs from `|D|`. Otherwise column `j` is scaled by `2^-D[j]`, which undoes `ApplyLeftBalExp`. |
| MatBalance.OffMassNonNegative | src/ReaK/core/lin_alg/mat_balance.hpp:157-165 | The total off-diagonal magnitude is never negative. |
| MatBalance.OffDiagonalMagnitudes | src/ReaK/core/lin_alg/mat_balance.hpp:157-165 | The inner loop yields the sums of the magnitudes of the off-diagonal entries of row `i` and of column `i`. |
| MatBalance.ExponentBrackets | src/ReaK/core/lin_alg/mat_balance.hpp:171-183 | The searched exponent `f` leaves `col * 4^f` between `row / 2` and `2 * row`. |
| MatBalance.SearchExponent | src/ReaK/core/lin_alg/mat_balance.hpp:171-183 | The two search loops compute `BalancingExponent`. |
| MatBalance.RescaledOffMass | src/ReaK/core/lin_alg/mat_balance.hpp:186-191 | Rescaling index `i` changes the off-diagonal mass only through row `i` and column `i`. |
| MatBalance.AcceptanceShrinks | src/ReaK/core/lin_alg/mat_balance.hpp:186 | The acceptance test holds exactly when scaling the column by `2^f` and the row by `2^-f` brings their magnitudes below 95% of what they were. |
| MatBalance.AcceptedStepLowersMass | src/ReaK/core/lin_alg/mat_balance.hpp:186-192 | Every accepted step lowers the off-diagonal mass by more than a fixed amount, so `while (keep_going)` terminates. |
| MatBalance.ScaleColumn | src/ReaK/core/lin_alg/mat_balance.hpp:187-188 | The first `for` loop scales column `i` and nothing else. |
| MatBalance.ScaleRow | src/ReaK/core/lin_alg/mat_balance.hpp:189-190 | The second `for` loop scales row `i` and nothing else. |
| MatBalance.BalanceIndex | src/ReaK/core/lin_alg/mat_balance.hpp:156-193 | An index is rescaled exactly when both magnitudes are at least epsilon and the test accepts. Then the matrix is rescaled by the searched exponent; otherwise it is unchanged. |
| MatBalance.RescaleKeepsBalancedBy | src/ReaK/core/lin_alg/mat_balance.hpp:186-192 | Rescaling index `i` by `f` and adding `f` to `D[i]` keeps every entry equal to the input's entry times `2^(D[c] - D[r])`. |
| MatBalance.BalancedKeepsDiagonal | src/ReaK/core/lin_alg/mat_balance.hpp:186-192 | A matrix balanced by any exponents has the input's diagonal. |
| MatBalance.BalancePass | src/ReaK/core/lin_alg/mat_balance.hpp:155-194 | One pass over all indices keeps the balancing relation and lowers the mass when some index was rescaled. If none was, every index fails the test. |
| MatBalance.Balance | src/ReaK/core/lin_alg/mat_balance.hpp:137-196 | A non-square matrix fails with the square-matrix error and is left unchanged. Otherwise it returns `N` exponents by which the result is the input balanced. The diagonal is unchanged, and no index would be rescaled again. |
| MatBalance.AsWrittenStepUnbalances | src/ReaK/core/lin_alg/mat_balance.hpp:186-191 | On `[[0, 1], [16, 0]]` the test accepts `f = -2`. The scaling as written raises the off-diagonal mass from 17 to 64.25; the corrected direction lowers it to 8. |
| MatBalance.AsWrittenGuardAdmitsTallMatrix | src/ReaK/core/lin_alg/mat_balance.hpp:139-165 | The guard `rows < cols` lets a 2 x 1 matrix through. The magnitude loop then reads entry `(0, 1)`, outside the matrix. |
| ConstantTrajectories.PointTimeIterator.Plus | src/ReaK/ctrl/interpolation/constant_trajectory.hpp:84-85 | Moving an iterator forward by any amount keeps the point it yields. |
| ConstantTrajectories.PointTimeIterator.Minus | src/ReaK/ctrl/interpolation/constant_trajectory.hpp:86-89 | Moving it back by any amount keeps the point it yields. |
| ConstantTrajectories.PointTimeIterator.Equals | src/ReaK/ctrl/interpolation/constant_trajectory.hpp:91 | Any two iterators compare equal. |
| ConstantTrajectories.PointTimeIterator.NotEquals | src/ReaK/ctrl/interpolation/constant_trajectory.hpp:92 | No two iterators compare unequal. |
| ConstantTrajectories.PointTimeIterator.Deref | src/ReaK/ctrl/interpolation/constant_trajectory.hpp:94 | Dereferencing gives the point the iterator was made with: the iterator is that point's iterator. |
| ConstantTrajectories.IteratorNeverMoves | src/ReaK/ctrl/interpolation/constant_trajectory.hpp:84-94 | After any sequence of moves an iterator still yields its original point. |
| ConstantTrajectories.ConstantTrajectory.constructor | src/ReaK/ctrl/interpolation/constant_trajectory.hpp:128 | The start point is the given spatial point at time 0. |
| ConstantTrajectories.ConstantTrajectory.GetStartPoint | src/ReaK/ctrl/interpolation/constant_trajectory.hpp:130 | The start point lies on the trajectory, and the trajectory is at its spatial point at every time. |
| ConstantTrajectories.ConstantTrajectory.SetStartPoint | src/ReaK/ctrl/interpolation/constant_trajectory.hpp:131-134 | A null argument leaves the start point unchanged. Any other argument replaces it. |
| ConstantTrajectories.ConstantTrajectory.GetPointAtTime | src/ReaK/ctrl/interpolation/constant_trajectory.hpp:136 | The point at `t` has time `t` and the start's spatial point. |
| ConstantTrajectories.ConstantTrajectory.MoveTimeDiffFrom | src/ReaK/ctrl/interpolation/constant_trajectory.hpp:138 | Moving `p` by `dt` gives time `p.time + dt` at the start's spatial point, whatever `p`'s spatial part. |
| ConstantTrajectories.ConstantTrajectory.TravelDistance | src/ReaK/ctrl/interpolation/constant_trajectory.hpp:140 | The distance between any two points is 0. |
| ConstantTrajectories.ConstantTrajectory.GetWaypointAtTime | src/ReaK/ctrl/interpolation/constant_trajectory.hpp:142-144 | The waypoint pair at `t` carries the point at `t`. |
| ConstantTrajectories.ConstantTrajectory.MoveWaypointTimeDiffFrom | src/ReaK/ctrl/interpolation/constant_trajectory.hpp:146-148 | Moving a waypoint pair moves its point as `MoveTimeDiffFrom` does. |
| ConstantTrajectories.ConstantTrajectory.WaypointTravelDistance | src/ReaK/ctrl/interpolation/constant_trajectory.hpp:150 | The distance between any two waypoint pairs is 0. |
| ConstantTrajectories.ConstantTrajectory.GetStartTime | src/ReaK/ctrl/interpolation/constant_trajectory.hpp:152 | The start time is at or before every time (minus infinity). |
| ConstantTrajectories.ConstantTrajectory.GetEndTime | src/ReaK/ctrl/interpolation/constant_trajectory.hpp:153 | The end time is at or after every time (plus infinity). |
| ConstantTrajectories.ConstantTrajectory.BeginTimeTravel | src/ReaK/ctrl/interpolation/constant_trajectory.hpp:105 | The begin time iterator yields the start point. |
| ConstantTrajectories.ConstantTrajectory.EndTimeTravel | src/ReaK/ctrl/interpolation/constant_trajectory.hpp:111 | The end time iterator yields the start point. |
| ConstantTrajectories.ConstantTrajectory.BeginFractionTravel | src/ReaK/ctrl/interpolation/constant_trajectory.hpp:117 | The begin fraction iterator yields the start point. |
| ConstantTrajectories.ConstantTrajectory.EndFractionTravel | src/ReaK/ctrl/interpolation/constant_trajectory.hpp:123 | The end fraction iterator yields the start point. |
| ConstantTrajectories.TimeRangeCoversAll | src/ReaK/ctrl/interpolation/constant_trajectory.hpp:152-153 | Every time lies within the trajectory's time range. |
| ConstantTrajectories.PointsAgreeAtAllTimes | src/ReaK/ctrl/interpolation/constant_trajectory.hpp:136-140 | Points at any two times share their spatial part and lie at distance 0. |
| ConstantTrajectories.TimeStepsCompose | src/ReaK/ctrl/interpolation/constant_trajectory.hpp:136-138 | Two time steps compose into one. A step from the point at `t` lands on the point at `t + dt`. |
| ConstantTrajectories.TravelStaysAtStart | src/ReaK/ctrl/interpolation/constant_trajectory.hpp:105-111 | Travelling from the begin iterator by any steps yields the end iterator's point, and the two compare equal. |
| ChaserTargetData.PairsFrom | src/ReaK/ctrl/kte_models/chaser_target_model_data.cpp:159-164 | The pairs made from index `from` on number `max(0, envs - from)`. Pair `k` joins the proxy with env model `from + k` under the prefixed name. |
| ChaserTargetData.ExtendPairs | src/ReaK/ctrl/kte_models/chaser_target_model_data.cpp:159-165 | The `push_back` loop appends exactly the pairs from the list's current length on. |
| ChaserTargetData.ExtendedPairsShape | src/ReaK/ctrl/kte_models/chaser_target_model_data.cpp:159-165 | The extended list has length `max(old length, env count)`. It keeps the old entries, and entry `k` past them pairs with env model `k`. |
| ChaserTargetData.ExtendingSyncedIsIdentity | src/ReaK/ctrl/kte_models/chaser_target_model_data.cpp:159-165 | Extending a list that already has one pair per env model appends nothing. |
| ChaserTargetData.SyncedListExtends | src/ReaK/ctrl/kte_models/chaser_target_model_data.cpp:118-124 | A synchronised list extended after env models are appended is the synchronised list of the longer model list. |
| ChaserTargetData.ChaserTargetModel.constructor | src/ReaK/ctrl/kte_models/chaser_target_model_data.cpp:43-45 | Starts with no proxies and empty lists. |
| ChaserTargetData.ChaserTargetModel.CreateChaserTargetProxy | src/ReaK/ctrl/kte_models/chaser_target_model_data.cpp:144-152 | With both proxies present, the pair is built under the name `chaser_target_proxy`. With either missing, the pair is null afterwards. Nothing else changes. |
| ChaserTargetData.ChaserTargetModel.CreateChaserEnvProxies | src/ReaK/ctrl/kte_models/chaser_target_model_data.cpp:155-169 | Without a chaser proxy nothing changes. Otherwise the chaser list is extended with the `chaser_env_proxy:` pairs, and nothing else changes. |
| ChaserTargetData.ChaserTargetModel.CreateTargetEnvProxies | src/ReaK/ctrl/kte_models/chaser_target_model_data.cpp:172-186 | The same for the target proxy, with the `target_env_proxy:` prefix. |
| ChaserTargetData.ChaserTargetModel.ClearEnvironment | src/ReaK/ctrl/kte_models/chaser_target_model_data.cpp:137-141 | Empties the geometry list and both pair lists, and keeps the env proxy models. |
| ChaserTargetData.ChaserTargetModel.LoadEnvironment | src/ReaK/ctrl/kte_models/chaser_target_model_data.cpp:118-124 | Appends each model that is not null, then extends both pair lists. A list that was in sync stays in sync. |
| ChaserTargetData.ChaserTargetModel.LoadChaser | src/ReaK/ctrl/kte_models/chaser_target_model_data.cpp:57-59 | After the new chaser proxy is read, the chaser/target pair is rebuilt and the chaser list is cleared and rebuilt. With a proxy, the list ends with one pair per env model; without one, it ends empty. |
| ChaserTargetData.ChaserTargetModel.LoadTarget | src/ReaK/ctrl/kte_models/chaser_target_model_data.cpp:93-95 | The same for the target proxy and the target list. |
| FreeFloatingPlatforms.Frame.constructor | src/ReaK/ctrl/kte_models/free_floating_platform.cpp:346-347 | A new frame with the given parent and kinematic state. |
| FreeFloatingPlatforms.Frame.PlaceAt | src/ReaK/ctrl/kte_models/free_floating_platform.cpp:359-365 | Sets the parent, the pose and the zero rates of one end-effector frame. |
| FreeFloatingPlatforms.DependentFrame.constructor | src/ReaK/ctrl/kte_models/free_floating_platform.cpp:348 | A dependent frame over the given frame, with no upstream joints. |
| FreeFloatingPlatforms.DependentFrame.AddJoint | src/ReaK/ctrl/kte_models/free_floating_platform.cpp:349 | Registers the joint with its Jacobian. |
| FreeFloatingPlatforms.FreeFloaterKinematics.constructor | src/ReaK/ctrl/kte_models/free_floating_platform.cpp:318-340 | No end effectors or poses. The given base frame is kept; a null one is replaced by a new frame at rest. The output frame is a child of the state frame. |
| FreeFloatingPlatforms.FreeFloaterKinematics.ResyncEndEffectors | src/ReaK/ctrl/kte_models/free_floating_platform.cpp:342-351 | Afterwards there is one frame per pose. Surplus frames are erased from the end, and the leading frames are kept. Each new frame is fresh, a child of the output frame, and depends on the state joint. Frames already in sync are left unchanged, so a second call changes nothing. |
| FreeFloatingPlatforms.FreeFloaterKinematics.DoDirectMotion | src/ReaK/ctrl/kte_models/free_floating_platform.cpp:354-367 | After resync, every end-effector frame is at its pose under the output frame, with zero velocity and acceleration. |
| FreeFloatingPlatforms.FreeFloaterKinematics.DoInverseMotion | src/ReaK/ctrl/kte_models/free_floating_platform.cpp:369-372 | After resync, the routine goes on exactly when there is at least one end-effector pose. |

## Left out

- Floating point. Reals are exact: `ldexp` never overflows or underflows, sums of magnitudes do not round, and `p.time + dt` does not round. The constant 0.95 and epsilon (`2^-52`) are kept as exact reals.
- MatBalance.Balance: the exponents are unbounded integers, so an `int` overflow of `D[i]` is not modelled. The loop index type is taken to be an index, not `double`.
- ScalarMatrices.FromGeneral: requires a non-empty general matrix, because the source divides the trace by a zero dimension (a NaN) for an empty one.
- The type-erasure layer of the query is not part of this model: `any_graph`, `boost::any` vertices, `get_dyn_prop` and `enable_if` dispatch. The registration routines take the concrete graph directly.
- Steering: `steer_position_toward` is a parameter that returns the steer record, and its returned end point is unused, as in the source. Steer-record iterators are the record as a sequence.
- Distance metrics, `get_distance_to_goal` and `get_heuristic_to_goal`: metrics are parameters, and the two goal-distance queries are not part of this model.
- The motion-graph walks require that the walked chain is finite. For the non-steerable optimal walk this requires a predecessor chain that reaches the root, since the source has no guard there.
- PlanningQueries.P2PQuery.RegisterSolutionFromOptimalMg and PlanningQueries.P2PQuery.RegisterJoiningPointFromOptimalMg: when the price check passes, they require the optimal walk to terminate, since the non-steerable walk has no guard. A candidate that fails the price check needs nothing.
- Assignment operators, copy and move constructors, and `transpose_move`: they copy or move a value, which a Dafny value type does without code.
- The double-factor `balance`, the diagonal-matrix variant and `balance_pencil` are not part of this model.
- Serialization: the archive reads of `load_chaser`, `load_target` and `load_environment` become method parameters, and every `save`/`load` and RTTI member is omitted. `RK_NOTICE` logging is omitted.
- Kinematics of the free-floating platform: `m_chain->doMotion()`, the averaging of the end-effector frames in `doInverseMotion`, and the Jacobian contents. Frame and Jacobian values are type parameters or opaque objects. The 2D and 3D classes share one model.
- ScalarMatrices.GetBlock: the range test `aDiagOffset + aSizeOut > rowCount` is on unbounded naturals, so the wrap-around of the unsigned `size_type` sum, which lets huge arguments pass the test in the source, is not modelled.
- Default arguments: the model's callers pass every argument. The defaults are `aMaxNumResults = 1` of the query constructor, the fill value 0 of the sized scalar-matrix constructor, and the default-constructed start point of the constant trajectory.
- Aliasing of `shared_ptr` objects between lists is modelled only for the end-effector frames. Proxy models are values identified by an id and a name.

## Findings

| source | as written | input that shows it | evidently intended | confidence | as-written member | corrected member |
|---|---|---|---|---|---|---|
| src/ReaK/core/lin_alg/mat_balance.hpp:186-191 | An accepted step scales column `i` by `2^-f` and row `i` by `2^f`. | `[[0, 1], [16, 0]]`, index 0: `f = -2` is accepted. The off-diagonal mass goes from 17 to 64.25. | Scale column `i` by `2^f` and row `i` by `2^-f`. This is what the acceptance test measures (line 186), what the double-factor version does (lines 108-113), and what the documented `D^-1 A D` needs. The mass then goes to 8. | not executed | MatBalance.AsWrittenStepUnbalances | MatBalance.Balance |
| src/ReaK/core/lin_alg/mat_balance.hpp:139-140 | The guard throws only when `rows < cols`. | A 2 x 1 matrix passes. The magnitude loop then reads `A(0, 1)`. | Throw unless `rows == cols`, as documented for this function. | not executed | MatBalance.AsWrittenGuardAdmitsTallMatrix | MatBalance.Balance |
| src/ReaK/ctrl/path_planning/planning_queries.hpp:457-467 | The steerable optimal walk breaks off at a vertex without an in-edge from its predecessor after it has already stepped to the predecessor. It then accepts whenever that vertex is the start. | Root 0, vertex 1 with predecessor 0 and no in-edges. The walk stops at 0 and the path `[position(1)]` is stored without the start position. | Accept only a walk that was not broken off. | not executed | Registration.AsWrittenAcceptsPartialPath | Registration.RegisterOptimalSolutionPath |
| src/ReaK/ctrl/path_planning/planning_queries.hpp:709-743 | The joined steerable optimal walks also step to the predecessor before they break off, and line 738 checks only that both walks end at their roots. | Start tree: root 0, joining vertex 1 with predecessor 0 and no in-edges; goal tree with its joining vertex equal to its root. Both walks end at their roots and the path `[position(1), position(goal)]` is stored without the start position. | Accept only walks that were not broken off. | not executed | Registration.AsWrittenJoinedAcceptsPartialPath | Registration.RegisterOptimalJoinedPath |
