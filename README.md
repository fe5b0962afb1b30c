# EzySlice examples: shatter scripts and geometry helpers, in Dafny

This project models the logic of the EzySlice example project for the Unity engine. It covers the three scripts that break an object into pieces, called shards. They do this by slicing it repeatedly with random planes:

- the editor script `Shatter`;
- `RuntimeShatterExample`;
- the recursive `ShatterExample`.

It also models the helper extensions those scripts come with:

- the point-versus-plane classifier with its tolerance band (`PlaneEx`);
- the signed-tetrahedron mesh volume (`MeshEx`);
- column extraction from 4x4 matrices (`MatrixEx`);
- hierarchy search, sibling navigation and bounds transformation (`TransformEx`).

Layout, one module per source file plus three shared modules:

- `wrappers.dfy`: `Option`, `Result` and the engine's exception kinds.
- `vectors.dfy`: three-component vectors over `real`.
- `plane_ex.dfy`, `mesh_ex.dfy`, `matrix_ex.dfy`, `transform_ex.dfy`: the helpers.
  - Pure code is written as functions and lemmas.
  - `VolumeOfMesh`, the breadth-first `FindDeep` and `TransformBounds` are methods, proved against specification functions.
- `scene.dfy`: the engine objects the scripts change in place.
  - `GameObject` and `Rigidbody` are classes. An object's destroyed state is a field.
  - It also holds the slicer's results, the engine's integer `Random.Range`, the mass split and the shard list's first-occurrence removal.
- `shatter.dfy`, `runtime_shatter_example.dfy`: each script is a class with its shard list as a field.
  - `RandomShatter` and `Gravity` are methods with `modifies` frames.
  - Each pick loop is proved against a function of the list's statuses and the random draws.
- `shatter_example.dfy`: the recursive budgeted `ShatterObject`, one pass of its loop `ShatterAttempt` and its foreach `ShatterEach`, proved against `ShatterSpec`.
  - They are mutually recursive methods.
  - `ShatterSpec` is a function of the object's placement, the budget and the position in a stream of random samples.

Randomness is passed in as parameters:

- `Random.Range` draws are a sequence of naturals;
- `insideUnitSphere` samples are vectors;
- in `ShatterExample` they are a function from sample number to sample.

The EzySlice slicer is an arbitrary total function. It maps a mesh and a plane to nothing, or to a list of hulls with their volumes and the volume of the mesh that was cut. Floats are modelled as `real`:

- the tolerance `0.0001f` is taken as 1/10000;
- `0.166666666666667f` is taken as 1/6;
- `0.7f` is taken as 7/10.

## Model

| member | source | states |
|---|---|---|
| PlaneEx.SideOf | EzySlice-Examples/Assets/Scripts/PlaneEx.cs:17-34 | Up exactly when the signed value exceeds epsilon, Down exactly when it is below -epsilon, On exactly when it lies in the closed band |
| PlaneEx.BandEdgesAreOn | EzySlice-Examples/Assets/Scripts/PlaneEx.cs:15-33 | a signed value of exactly +epsilon or -epsilon is classified On, both comparisons being strict |
| PlaneEx.SideOfNegated | EzySlice-Examples/Assets/Scripts/PlaneEx.cs:21-33 | negating normal and distance negates the signed value, swaps Up and Down and keeps On |
| PlaneEx.SideOfMonotone | EzySlice-Examples/Assets/Scripts/PlaneEx.cs:23-33 | the classification is monotone in the signed value, with Down below On below Up |
| PlaneEx.PlaneThroughContainsPoint | EzySlice-Examples/Assets/Examples/Scripts/Shatter.cs:85 | the engine plane built from a normal and a point has signed value 0 at that point, so the point is On |
| MeshEx.VolumeOfMesh | EzySlice-Examples/Assets/Scripts/MeshEx.cs:29-42 | the loop over index triples returns the absolute value of the sum of the signed triangle volumes, never negative |
| MeshEx.SignedVolumeOfTriangle | EzySlice-Examples/Assets/Scripts/MeshEx.cs:17-27 | the six products equal one sixth of the scalar triple product Dot(p1, Cross(p2, p3)), the signed volume of the tetrahedron on the origin |
| MeshEx.CalculateVolume | EzySlice-Examples/Assets/Scripts/MeshEx.cs:10-15 | the mesh volume is exactly what VolumeOfMesh computes for the mesh's triangles and vertices |
| MeshEx.EmptyMeshHasNoVolume | EzySlice-Examples/Assets/Scripts/MeshEx.cs:32-41 | an empty triangle list has volume 0 |
| MeshEx.DegenerateTriangleHasNoVolume | EzySlice-Examples/Assets/Scripts/MeshEx.cs:17-27 | a triangle with two coincident corners has signed volume 0, whichever two coincide |
| MeshEx.TriangleOrientation | EzySlice-Examples/Assets/Scripts/MeshEx.cs:17-27 | exchanging two corners negates the signed volume; rotating all three keeps it |
| MeshEx.ReverseWindingNegates | EzySlice-Examples/Assets/Scripts/MeshEx.cs:34-40 | reversing every triangle's winding keeps the index list valid and negates the signed sum |
| MeshEx.ReverseWindingKeepsVolume | EzySlice-Examples/Assets/Scripts/MeshEx.cs:34-41 | reversing every triangle's winding leaves the mesh volume unchanged, the absolute value being taken once after summing |
| MeshEx.SignedVolumeSumAppend | EzySlice-Examples/Assets/Scripts/MeshEx.cs:34-40 | the signed sum over two joined index lists is the sum of their signed sums |
| MatrixEx.ExtractX | EzySlice-Examples/Assets/Scripts/MatrixEx.cs:30-37 | the result is rows 0 to 2 of column 0 |
| MatrixEx.ExtractY | EzySlice-Examples/Assets/Scripts/MatrixEx.cs:39-46 | the result is rows 0 to 2 of column 1 |
| MatrixEx.ExtractZ | EzySlice-Examples/Assets/Scripts/MatrixEx.cs:48-55 | the result is rows 0 to 2 of column 2 |
| MatrixEx.ExtractPosition | EzySlice-Examples/Assets/Scripts/MatrixEx.cs:57-64 | the result is rows 0 to 2 of column 3, the translation |
| MatrixEx.ExtractRotationArguments | EzySlice-Examples/Assets/Scripts/MatrixEx.cs:17-27 | the forward and upwards vectors handed to LookRotation are ExtractZ and ExtractY |
| MatrixEx.ExtractScaleSquared | EzySlice-Examples/Assets/Scripts/MatrixEx.cs:93-100 | each component is the square of the ExtractScale component: the squared length of the whole four-entry column, bottom row included, never negative |
| MatrixEx.ExtractFromColumns | EzySlice-Examples/Assets/Scripts/MatrixEx.cs:30-64 | extracting from a matrix built from four columns gives back the first three entries of each column |
| MatrixEx.AffineScaleIsAxisLength | EzySlice-Examples/Assets/Scripts/MatrixEx.cs:93-100 | with a bottom row of 0, 0, 0 in the first three columns, the squared scale is the squared length of the extracted axes |
| MatrixEx.MatrixAfterSetPosition | EzySlice-Examples/Assets/Scripts/MatrixEx.cs:66-78 | after either SetPosition overload the caller's matrix is unchanged, so ExtractPosition still returns the old translation, unlike any other position asked for |
| MatrixEx.SetPosition | EzySlice-Examples/Assets/Scripts/MatrixEx.cs:66-71 | the three writes land in the method's own copy of the matrix, which becomes WithPosition of the argument, and the caller drops it |
| MatrixEx.SetPositionFromVector | EzySlice-Examples/Assets/Scripts/MatrixEx.cs:73-78 | the Vector3 overload: its writes too make only the dropped copy WithPosition of the argument |
| MatrixEx.WithPosition | EzySlice-Examples/Assets/Scripts/MatrixEx.cs:66-78 | the intended SetPosition: ExtractPosition of the result is the new position, and the axes and the bottom row are kept |
| MatrixEx.WithPositionRoundTrip | EzySlice-Examples/Assets/Scripts/MatrixEx.cs:57-78 | setting the extracted position leaves the matrix as it was; setting any other position changes it |
| TransformEx.FindDeepDfs | EzySlice-Examples/Assets/Scripts/TransformEx.cs:43-60 | a depth-first result has the requested name and, under activeOnly, is active |
| TransformEx.DfsFindsFirstInPreorder | EzySlice-Examples/Assets/Scripts/TransformEx.cs:43-60 | the depth-first search returns the first accepted node of the pre-order that descends only into children that are active (or all children without activeOnly) |
| TransformEx.FindInChildrenFindsFirst | EzySlice-Examples/Assets/Scripts/TransformEx.cs:50-58 | the foreach over children from index i on returns the first accepted node of their pre-orders, skipping inactive children under activeOnly |
| TransformEx.FindDeepBfs | EzySlice-Examples/Assets/Scripts/TransformEx.cs:61-77 | the queue loop returns the first accepted node in level order, every child being enqueued whatever its activity |
| TransformEx.FindDeep | EzySlice-Examples/Assets/Scripts/TransformEx.cs:41-78 | each mode returns the first accepted node of its visiting order; any result has the requested name and, under activeOnly, is active; by default the search is breadth-first and active-only |
| TransformEx.DfsFindsIffReachable | EzySlice-Examples/Assets/Scripts/TransformEx.cs:43-60 | the depth-first search returns null exactly when no accepted node is reachable without entering a skipped child |
| TransformEx.FindInChildrenFindsIffReachable | EzySlice-Examples/Assets/Scripts/TransformEx.cs:50-59 | the children loop finds a node exactly when some child it descends into has a reachable accepted node |
| TransformEx.LevelOrderReachesAll | EzySlice-Examples/Assets/Scripts/TransformEx.cs:63-76 | the level order of a queue meets an accepted node exactly when some subtree in the queue holds one |
| TransformEx.BfsFindsIffAnywhere | EzySlice-Examples/Assets/Scripts/TransformEx.cs:61-77 | the breadth-first search returns null exactly when no node anywhere in the tree, inactive subtrees included, is accepted |
| TransformEx.DfsReachableIsInTree | EzySlice-Examples/Assets/Scripts/TransformEx.cs:43-77 | whatever the depth-first search can reach, the breadth-first search can too |
| TransformEx.ModesAgreeWithoutActiveOnly | EzySlice-Examples/Assets/Scripts/TransformEx.cs:41-78 | without activeOnly the depth-first search reaches a match exactly when one is anywhere in the tree |
| TransformEx.ModesDifferUnderInactiveChild | EzySlice-Examples/Assets/Scripts/TransformEx.cs:50-74 | on the tree root → inactive `hidden` → active `target`, with activeOnly, the depth-first search for `target` returns null while the breadth-first search finds it |
| TransformEx.GetPreviousSibling | EzySlice-Examples/Assets/Scripts/TransformEx.cs:124-128 | null exactly when the sibling index is 0; otherwise the parent's child at index - 1; it throws exactly when a non-first node has no parent |
| TransformEx.GetNextSibling | EzySlice-Examples/Assets/Scripts/TransformEx.cs:130-135 | throws exactly when there is no parent; null exactly for the last child; otherwise the child at index + 1 |
| TransformEx.GetNumSiblingsAfter | EzySlice-Examples/Assets/Scripts/TransformEx.cs:137-141 | throws exactly when there is no parent; otherwise the number of children after the node, never negative |
| TransformEx.GetFirstChild | EzySlice-Examples/Assets/Scripts/TransformEx.cs:143-146 | null exactly when there are no children; otherwise child 0 |
| TransformEx.GetLastChild | EzySlice-Examples/Assets/Scripts/TransformEx.cs:148-152 | null exactly when there are no children; otherwise child count - 1 |
| TransformEx.SiblingsRoundTrip | EzySlice-Examples/Assets/Scripts/TransformEx.cs:124-135 | the previous sibling of child i is child i - 1, whose next sibling is child i |
| TransformEx.NoSiblingsAfterIffLast | EzySlice-Examples/Assets/Scripts/TransformEx.cs:130-141 | no siblings follow exactly when the next sibling is null |
| TransformEx.FirstAndLastChildEnds | EzySlice-Examples/Assets/Scripts/TransformEx.cs:124-152 | the first child has no previous sibling and count - 1 siblings after it; the last child has no next sibling |
| TransformEx.TransformBounds | EzySlice-Examples/Assets/Scripts/TransformEx.cs:158-178 | the center is mapped as a point; each extent is the sum of the absolute values of that component of the three mapped half-axes, hence non-negative; every point of the local box maps into the world box |
| TransformEx.MappedAxes | EzySlice-Examples/Assets/Scripts/TransformEx.cs:163-166 | each mapped half-axis is a column of the linear map scaled by that extent |
| TransformEx.MappedBoxInside | EzySlice-Examples/Assets/Scripts/TransformEx.cs:158-177 | a point of the local box maps into the box with the mapped center and the summed extents |
| Scene.Rigidbody.CopyOf | EzySlice-Examples/Assets/Examples/Scripts/Shatter.cs:161-168 | the new body copies velocity, angular velocity, gravity and kinematic flags and both drags, and takes the given mass |
| Scene.GameObject.Instantiate | EzySlice-Examples/Assets/Examples/Scripts/Shatter.cs:157 | a hull object is placed as its hull, active, not destroyed, and has no body |
| Scene.Status | EzySlice-Examples/Assets/Examples/Scripts/Shatter.cs:143 | an entry is live exactly when it is non-null, not destroyed and active |
| Scene.AccessError | EzySlice-Examples/Assets/Examples/Scripts/Shatter.cs:130 | reading a member throws exactly for a null or a destroyed object: NullReference or MissingReference |
| Scene.BodyError | EzySlice-Examples/Assets/Examples/Scripts/Shatter.cs:107-116 | reaching an object's body throws exactly when the object is null, destroyed, or has no body |
| Scene.FirstBodyError | EzySlice-Examples/Assets/Examples/Scripts/Shatter.cs:108-111 | no error exactly when every entry's body is reachable; otherwise the first unreachable entry's error |
| Scene.SetAllGravity | EzySlice-Examples/Assets/Examples/Scripts/Shatter.cs:108-111 | the loop returns exactly when every body is reachable, and then all flags equal g; otherwise it raises the first entry's error; the bodies of the entries before the first unreachable one take g, every other body keeps its flag, and only gravity flags change |
| Scene.SetGravityWhileReachable | EzySlice-Examples/Assets/Examples/Scripts/Shatter.cs:108-111 | the loop sets g on the bodies of exactly the leading entries whose body is reachable, stops at the first entry without one, and leaves every other body's flag as it was |
| Scene.ToggleGravity | EzySlice-Examples/Assets/Examples/Scripts/Shatter.cs:115-116 | the root's body has its gravity flag toggled, or the call raises the body's access error and no flag changes; nothing else of the body changes |
| Scene.RandomRange | EzySlice-Examples/Assets/Examples/Scripts/Shatter.cs:137 | the integer Random.Range lies in [min, max) for a non-empty range, and is min when max equals min (and, as an assumption, when max is below min) |
| Scene.RandomRangeCovers | EzySlice-Examples/Assets/Examples/Scripts/Shatter.cs:137 | every value of a non-empty range is produced by some draw |
| Scene.ChildMass | EzySlice-Examples/Assets/Examples/Scripts/Shatter.cs:168 | a hull's mass times the source volume equals the source mass times the hull volume |
| Scene.ChildMasses | EzySlice-Examples/Assets/Examples/Scripts/RuntimeShatterExample.cs:144-163 | hull i's mass is ChildMass of hull i's volume, for every hull |
| Scene.ChildMassesShare | EzySlice-Examples/Assets/Examples/Scripts/RuntimeShatterExample.cs:157-158 | the hull masses add up to the mass share of the summed hull volumes |
| Scene.ChildMassesTotal | EzySlice-Examples/Assets/Examples/Scripts/RuntimeShatterExample.cs:157-158 | the hull masses, summed and scaled by the source volume, give the source mass times the summed hull volumes |
| Scene.ChildMassAdd | EzySlice-Examples/Assets/Examples/Scripts/Shatter.cs:168 | the mass shares of two volumes add up to the share of their sum |
| Scene.MassConserved | EzySlice-Examples/Assets/Examples/Scripts/Shatter.cs:168 | when the hull volumes add up to the source volume, the hull masses add up to the source mass |
| Scene.MassProportional | EzySlice-Examples/Assets/Examples/Scripts/Shatter.cs:168 | the hull masses stand in the ratio of the hull volumes |
| Scene.RemoveFirst | EzySlice-Examples/Assets/Examples/Scripts/Shatter.cs:179 | List.Remove: an absent item leaves the list unchanged; a present one is removed exactly once, shortening the list by one |
| Scene.RemoveFirstAppend | EzySlice-Examples/Assets/Examples/Scripts/Shatter.cs:171-179 | removing an item present before items are appended removes it from the front part only |
| Scene.IndexOf | EzySlice-Examples/Assets/Examples/Scripts/Shatter.cs:179 | the index of the first occurrence of a present item |
| Scene.RemoveFirstSplits | EzySlice-Examples/Assets/Examples/Scripts/Shatter.cs:179 | List.Remove cuts out exactly the first occurrence and keeps the order of the rest |
| Scene.SplitReplacesTarget | EzySlice-Examples/Assets/Examples/Scripts/Shatter.cs:171-179 | appending the hulls and then removing a listed target is the list without the target followed by the hulls, so the count grows by hulls - 1 |
| Scene.SplitOfUnlistedTarget | EzySlice-Examples/Assets/Examples/Scripts/Shatter.cs:125-179 | when the target is not in the list, as on a first shatter, the removal does nothing and the hulls are simply appended |
| Shatter.GetRandomPlane | EzySlice-Examples/Assets/Examples/Scripts/Shatter.cs:77-86 | the plane's normal is the direction sample and its signed distance to the offset moved by the point sample is exactly 0, so that point lies on the plane and in its On band |
| Shatter.GetRandomPlaneIgnoresScale | EzySlice-Examples/Assets/Examples/Scripts/Shatter.cs:77-86 | the scale argument has no effect on the plane |
| Shatter.GetRandomPlaneNearOffset | EzySlice-Examples/Assets/Examples/Scripts/Shatter.cs:79-85 | for a unit-ball sample the plane holds a point within unit distance of the offset |
| Shatter.LeadingHulls | EzySlice-Examples/Assets/Examples/Scripts/Shatter.cs:155-158 | the number of hulls the two-step loop reads before a missing position: every earlier position holds a hull and the position it stops at is empty |
| Shatter.SliceFor | EzySlice-Examples/Assets/Examples/Scripts/Shatter.cs:52-62 | the slice is the slicer's answer for the object's mesh and the engine plane through the bounds centre moved by the point sample, with the direction as normal; the scaled extents play no part |
| Shatter.ShatterPick | EzySlice-Examples/Assets/Examples/Scripts/Shatter.cs:135-143 | a picked index is live and below Count - 1 whenever Count is at least 2; an empty list throws ArgumentOutOfRange |
| Shatter.LastShardNeverPicked | EzySlice-Examples/Assets/Examples/Scripts/Shatter.cs:137-143 | when all entries but the last are inactive, no number of draws ever ends the loop |
| Shatter.LiveShardCanBePicked | EzySlice-Examples/Assets/Examples/Scripts/Shatter.cs:137-143 | every live entry other than the last is picked by some draw |
| Shatter.PickShard | EzySlice-Examples/Assets/Examples/Scripts/Shatter.cs:135-143 | the do-while loop ends as ShatterPick says: the index picked, the exception reading the entry throws, or the draws used up |
| Shatter.Shatter.ChooseTarget | EzySlice-Examples/Assets/Examples/Scripts/Shatter.cs:123-144 | on a first shatter or outside play mode the list is reset and the root is the target (or its access error is raised); otherwise the list is kept and the target is the ShatterPick choice, alive and active |
| Shatter.Shatter.AddHulls | EzySlice-Examples/Assets/Examples/Scripts/Shatter.cs:154-172 | positions 0 and 1 are read in order; the hulls before the first missing position are appended, each a fresh active object with a body copied from the source with its mass share exactly when the source has one; a missing position throws NullReference, so a missing upper hull appends nothing |
| Shatter.Shatter.RandomShatter | EzySlice-Examples/Assets/Examples/Scripts/Shatter.cs:121-180 | with no target chosen, the exact exception of reading the root's or the drawn shard's name, or the pick still running; a missed slice destroys nothing and leaves the list as reset; a slice with a missing position throws NullReference after appending the hulls before it, and keeps the target; a slice with both hulls appends them, destroys the target and removes its first occurrence; objects other than the target keep their state |
| Shatter.Shatter.ShatterTwiceOutsidePlay | EzySlice-Examples/Assets/Examples/Scripts/Shatter.cs:125-131 | outside play mode a second call after a successful one restarts from the root it destroyed, so it raises MissingReference and chooses no target |
| Shatter.Shatter.Gravity | EzySlice-Examples/Assets/Examples/Scripts/Shatter.cs:103-118 | a null list throws before any write; with shards, an unreachable shard 0 throws before any write, otherwise the leading shards with a reachable body take the negation of shard 0's old flag (all of them when none fails) and every other body, the root's included, keeps its flag; with none, the root's flag is toggled, or kept when the call throws; motion, drag and mass never change |
| RuntimeShatterExample.GetRandomPlane | EzySlice-Examples/Assets/Examples/Scripts/RuntimeShatterExample.cs:61-70 | the EzySlice plane's point is the offset plus the point sample and its normal is the direction sample |
| RuntimeShatterExample.GetRandomPlaneIgnoresScale | EzySlice-Examples/Assets/Examples/Scripts/RuntimeShatterExample.cs:61-70 | the scaleOffset argument has no effect on the plane |
| RuntimeShatterExample.SliceFor | EzySlice-Examples/Assets/Examples/Scripts/RuntimeShatterExample.cs:39-52 | the slice is the slicer's answer for the object's mesh and the EzySlice plane at the bounds centre moved by the point sample, with the direction as normal; the scaled extents play no part |
| RuntimeShatterExample.RuntimePick | EzySlice-Examples/Assets/Examples/Scripts/RuntimeShatterExample.cs:108-123 | a picked index is live and below Count - 1 whenever Count is at least 2; the only exception that escapes is MissingReference |
| RuntimeShatterExample.PickRaisesOnlyOnDestroyed | EzySlice-Examples/Assets/Examples/Scripts/RuntimeShatterExample.cs:110-123 | with no destroyed entry the pick never throws: null entries are retried |
| RuntimeShatterExample.LastShardNeverPicked | EzySlice-Examples/Assets/Examples/Scripts/RuntimeShatterExample.cs:112-123 | when all entries but the last are null or inactive, no number of draws ever ends the loop |
| RuntimeShatterExample.SingleShardPicked | EzySlice-Examples/Assets/Examples/Scripts/RuntimeShatterExample.cs:112 | a list of one live shard has it picked by the first draw |
| RuntimeShatterExample.PickShard | EzySlice-Examples/Assets/Examples/Scripts/RuntimeShatterExample.cs:108-123 | the do-while loop with its try and catch ends as RuntimePick says |
| RuntimeShatterExample.RuntimeShatterExample.ChooseTarget | EzySlice-Examples/Assets/Examples/Scripts/RuntimeShatterExample.cs:96-124 | an empty list makes the root the target (or raises its access error); otherwise the target is the RuntimePick choice, alive and active |
| RuntimeShatterExample.RuntimeShatterExample.AddHulls | EzySlice-Examples/Assets/Examples/Scripts/RuntimeShatterExample.cs:144-163 | every hull is appended in enumeration order as a fresh active object, with a body copied from the source with mass share i exactly when the source has one |
| RuntimeShatterExample.RuntimeShatterExample.RandomShatter | EzySlice-Examples/Assets/Examples/Scripts/RuntimeShatterExample.cs:94-168 | with no target chosen, the exact exception of reading the root's name or of the pick, or the pick still running; a missed slice leaves the list and the target untouched; a successful one appends all hulls, destroys the target and removes its first occurrence; objects other than the target keep their state |
| RuntimeShatterExample.RuntimeShatterExample.SplitTarget | EzySlice-Examples/Assets/Examples/Scripts/RuntimeShatterExample.cs:139-166 | every hull is registered with a copy of the target's body and its mass share, then the target is destroyed and its first occurrence removed: the list becomes AfterSplit of the old one |
| RuntimeShatterExample.RuntimeShatterExample.Gravity | EzySlice-Examples/Assets/Examples/Scripts/RuntimeShatterExample.cs:77-92 | with shards, an unreachable shard 0 throws before any write, otherwise the leading shards with a reachable body take the negation of shard 0's old flag (all of them when none fails) and every other body, the root's included, keeps its flag; with none, the root's flag is toggled, or kept when the call throws; motion, drag and mass never change |
| ShatterExample.GetRandomPlane | EzySlice-Examples/Assets/Examples/Scripts/ShatterExample.cs:54-63 | the EzySlice plane's point is the offset plus the point sample and its normal is the direction sample |
| ShatterExample.GetRandomPlaneIgnoresScale | EzySlice-Examples/Assets/Examples/Scripts/ShatterExample.cs:54-63 | the scaleOffset argument has no effect on the plane |
| ShatterExample.AttemptPlane | EzySlice-Examples/Assets/Examples/Scripts/ShatterExample.cs:21-24 | the attempt's plane has the cursor's direction sample as normal and lies at the object's position moved by the cursor's point sample |
| ShatterExample.ShatterSpec | EzySlice-Examples/Assets/Examples/Scripts/ShatterExample.cs:15-48 | a budget of 0 or less gives null without using a sample; a positive budget uses at least one sample; only a positive budget can give a result |
| ShatterExample.ShatterSlices | EzySlice-Examples/Assets/Examples/Scripts/ShatterExample.cs:29-37 | the foreach records one entry per slice, in order, each with its own hull |
| ShatterExample.MissesUseUpBudget | EzySlice-Examples/Assets/Examples/Scripts/ShatterExample.cs:19-46 | when every attempt misses, the call tries exactly budget planes and returns null |
| ShatterExample.DepthWithinBudget | EzySlice-Examples/Assets/Examples/Scripts/ShatterExample.cs:19-42 | the levels of slicing in a result never exceed the initial iterations |
| ShatterExample.SlicesDepthWithinBudget | EzySlice-Examples/Assets/Examples/Scripts/ShatterExample.cs:29-37 | the slices shattered with a budget reach no more than that many further levels |
| ShatterExample.LastLevelSlicesDestroyed | EzySlice-Examples/Assets/Examples/Scripts/ShatterExample.cs:29-36 | with budget 1 at success every returned slice is destroyed |
| ShatterExample.NoBudgetSlicesDestroyed | EzySlice-Examples/Assets/Examples/Scripts/ShatterExample.cs:29-36 | slices shattered with budget 0 all return null and use no sample |
| ShatterExample.FailedAttemptCostsALevel | EzySlice-Examples/Assets/Examples/Scripts/ShatterExample.cs:31-43 | after a failed first attempt the result holds at most iterations - 1 levels |
| ShatterExample.SliceInstantiate | EzySlice-Examples/Assets/Examples/Scripts/ShatterExample.cs:24-26 | null exactly when the slicer misses; otherwise one fresh, distinct, active and not destroyed object per hull, placed as that hull |
| ShatterExample.ShatterObject | EzySlice-Examples/Assets/Examples/Scripts/ShatterExample.cs:15-48 | the method returns the slices of ShatterSpec's successful attempt and leaves the sample cursor where the specification does; a slice is destroyed exactly when its recursive call returned null |
| ShatterExample.ShatterAttempt | EzySlice-Examples/Assets/Examples/Scripts/ShatterExample.cs:21-40 | one pass of the loop returns null exactly when the slicer misses the sampled plane; on a hit it returns fresh slices as ShatterSpec describes them, destroyed exactly when their recursive call returned null |
| ShatterExample.ShatterEach | EzySlice-Examples/Assets/Examples/Scripts/ShatterExample.cs:29-37 | the foreach destroys exactly the slices whose recursive call returned null, as ShatterSlices records |

## Left out

- The engine's float arithmetic is left out. Values are exact reals, so rounding and overflow are not modelled. The constants 0.0001f, 0.166666666666667f and 0.7f are taken as 1/10000, 1/6 and 7/10.
- MatrixEx.ExtractScaleSquared: states the square of each `ExtractScale` component, because sqrt (`magnitude`) is not modelled.
- Normalising the random direction is left out. `insideUnitSphere.normalized` is taken as the given direction sample.
- MatrixEx.ExtractRotationArguments: states only the vectors `ExtractRotation` passes on. The quaternion comes from the engine's `LookRotation`, which is not part of this model.
- `Debug.Assert` in `TransformBounds` is left out (`TransformEx.cs:168-170`). It is a debugging check with no effect on the result.
- The transform-mutating helpers of `TransformEx` are left out: `InverseTransformPlane`, `CopyTransformFrom`, `SetLocalFromMatrix`, `SetWorldFromMatrix`, `GetLocalMatrix`, `DestroyGameObjects` and `SetLocalIdentity`/`SetWorldIdentity`. They only move engine objects.
- The transform is a linear map plus a translation. The engine's own `TransformPoint`/`TransformVector` on a scene transform are not part of this model.
- The test-plane branches are left out (`Shatter.cs:37-51`, `RuntimeShatterExample.cs:34-38`). So are `OnValidate`, `Explode`, `print`, `Debug.Log`, `Debug.LogWarning`, `Debug.Break` and the debug sphere drawing. None of them changes the shards.
- The collider is taken to exist, and its world bounds are part of an object's placement. `Debug.Assert(col)` is not modelled.
- `MeshCollider` creation on each hull is not modelled as a step. That collider's world bounds are what a later shatter of the hull reads (`Shatter.cs:54-56`, `RuntimeShatterExample.cs:29-31`). The model takes them from the hull's `Placement` (`boundsCenter`, `boundsExtents`), which the slicer supplies.
- `GetComponentInChildren<Rigidbody>` is modelled as the object's own body.
- The slicer (`SliceInstantiate`, `HullObject`, `HullVolume`, `SourceVolume`) is an arbitrary function of the mesh and the plane. For the runtime and recursive scripts a slice is the list of hulls its `foreach` enumerates, in the order of `HullVolume(i)`. For the editor script it is the two positions `HullObject(0)` (upper) and `HullObject(1)` (lower), either of which may be missing.
  - `RandomShatter` (both scripts) requires a slicer that never reports a source volume of 0. Division by zero of floats is not modelled.
- `Destroy` is modelled as taking effect at once. In play mode the engine defers it to the end of the frame, which no code here observes.
- `Application.isPlaying` is a parameter. Random draws and unit-ball samples are parameters too.
- A pick loop that never ends is represented by the draws running out (`StillPicking`).
- The editor that calls `RandomShatter` `shatterCount` times (`Editor/ShatterEditor.cs:52-55`) is not part of this model. Neither is the rest of the inspector UI.
- `Gravity` stops at the first entry whose body cannot be reached. It leaves the flags already set, as the exception would.
- Scene.RandomRange: the engine's behaviour for a maximum below the minimum is not modelled; the model returns the minimum. The scripts reach that case only as `Range(0, -1)` on an empty list, where any index is out of range.
- ShatterExample.ShatterObject: a null or destroyed root is excluded by its precondition, so the exception on reading `obj.transform` (`ShatterExample.cs:21`) is not modelled. Every caller passes a live object: the inspector returns early without one, and the recursion passes fresh slices.
- Shatter.Shatter.RandomShatter: the destroyed target is only marked destroyed. Other references to it keep seeing the same object.
- RuntimeShatterExample.RuntimeShatterExample.RandomShatter: the same holds as for the editor script's `RandomShatter`.
- `DebugDrawingExtension/DebugExtension.cs` is not part of this model. It only draws gizmos and debug lines.

## Findings

| source | as written | input that shows it | evidently intended | confidence | as-written member | corrected member |
|---|---|---|---|---|---|---|
| EzySlice-Examples/Assets/Scripts/MatrixEx.cs:66-78 | both `SetPosition` overloads take the `Matrix4x4` struct by value (`this Matrix4x4 matrix`), so they assign the fields of a copy and the caller's matrix keeps its old translation | the identity matrix with position (1, 2, 3): afterwards `ExtractPosition` still returns (0, 0, 0) | the caller's matrix gets the new translation, so that `ExtractPosition` returns it afterwards (a `ref this` parameter or a returned matrix) | not executed | MatrixEx.MatrixAfterSetPosition | MatrixEx.WithPosition |
