# Precise collider generator and flight zone — a Dafny model

This project models two pieces of a Unity game.

The first is the mesh optimisation pipeline that `PreciseColliderGenerator` runs before it
builds a collider: `OptimizeMesh`, which copies the source mesh, merges duplicate
vertices and, when the copy still has more than `maxVertices` vertices, simplifies it by
keeping the most-used vertices.

The second is the per-tick gameplay logic of the `FlightZone` component:
- the pixel fill of its arrow sprite;
- the test of whether the player is inside the zone's cylinder;
- the bounce bookkeeping of `ApplyDamping`;
- the stabilisation and lift forces, together with the bounds that their clamps guarantee.

Files:

- `unity_types.dfy` (`UnityTypes`): the engine value types (`Vector2`, `Vector3`, `Vector4`, `Color`) and `Option`.
- `mesh_model.dfy` (`MeshModel`): a `Mesh` class with one `seq` field per array property. It also holds the exceptions the passes can throw (`KeyNotFound`, `IndexOutOfRange`), the `Outcome` of a computation that may throw, and the `Select`/`InRange` index helpers.
- `duplicate_vertices.dfy` (`DuplicateVertices`): `RemoveDuplicateVertices`. The specification `Dedup` states which vertices are kept and where every vertex is sent. The source's loops are methods proved against it.
- `mesh_simplification.dfy` (`MeshSimplification`): `SimplifyMesh`. It covers the usage count, the sort by usage, the choice of the most-used vertices, the compaction of the vertex array and the filter over whole triangles.
- `mesh_optimizer.dfy` (`ColliderOptimization`): the `OptimizeMesh` pipeline.
- `flight_zone.dfy` (`FlightZones`): the `Mathf` helpers, the arrow texture, the zone test, the bounce state machine and the `FlightZone` class.

Modelling choices:

- **Floats.** Floats are `real`.
- **Engine computations as parameters.** The vertex distance test `Vector3.Distance(a, b) < vertexMergeThreshold` is a parameter `near`. So are `Vector2.Distance`, `Mathf.Sqrt`, `Mathf.Pow`, `AnimationCurve.Evaluate`, `Physics.gravity.y` and `Mesh.RecalculateNormals`.
- **Exceptions.** An exception that the C# code would throw becomes an `Outcome`/`Option` error. These are a dictionary lookup of a missing key, and an attribute or triangle array read past its end. Every mesh assignment in the source comes after the loops, so a pass that throws leaves the mesh as it was.
- **Sorting and dictionary order.** `List.Sort` is modelled by an insertion sort, but the top-k property is proved for every sorted permutation, so the unstable tie-break does not matter. The enumeration order of a `Dictionary` is an arbitrary choice.

## Model

| member | source | states |
|---|---|---|
| DuplicateVertices.FirstNearFinds | Assets/Scripts/PreciseColliderGenerator.cs:232-240 | the search of the already-kept vertices finds nothing exactly when no kept vertex is near; otherwise it finds the first near one |
| DuplicateVertices.FirstNear | Assets/Scripts/PreciseColliderGenerator.cs:232-240 | a near vertex found by the search is a position among the vertices kept so far |
| DuplicateVertices.FindDuplicate | Assets/Scripts/PreciseColliderGenerator.cs:228-240 | the inner loop sets `isDuplicate` exactly when a kept vertex is near, and `duplicateIndex` to the first such vertex (else -1) |
| DuplicateVertices.DedupKeepsOrderedSubsequence | Assets/Scripts/PreciseColliderGenerator.cs:226-255 | the kept vertices are an increasing subsequence of the input, at most as long, beginning with vertex 0, and each kept vertex maps to its own new position |
| DuplicateVertices.Dedup | Assets/Scripts/PreciseColliderGenerator.cs:226-255 | the merge of the first n vertices gives each of them one new index naming a kept vertex, and each kept vertex is an input position |
| DuplicateVertices.DedupKeptApart | Assets/Scripts/PreciseColliderGenerator.cs:232-254 | no kept vertex is near a kept vertex before it |
| DuplicateVertices.DedupMapsToFirstNear | Assets/Scripts/PreciseColliderGenerator.cs:232-248 | every vertex maps to a kept vertex at or before it, which is near it unless it is that vertex, and to none before that kept vertex |
| DuplicateVertices.DedupKeepsFreshVertex | Assets/Scripts/PreciseColliderGenerator.cs:246-249 | a vertex near no earlier kept vertex is kept, at the next new position |
| DuplicateVertices.DedupPrefix | Assets/Scripts/PreciseColliderGenerator.cs:226-255 | processing more vertices only extends the kept list and the index map |
| DuplicateVertices.DedupCornersStayNear | Assets/Scripts/PreciseColliderGenerator.cs:257-261 | rewritten triangles have as many corners as before, all valid merged indices, each naming its original vertex or one near it |
| DuplicateVertices.CarriedAttributeMatchesVertices | Assets/Scripts/PreciseColliderGenerator.cs:250-253 | on a mesh whose attribute array is empty or one per vertex, it can be read at every kept vertex and comes out as long as the merged vertex array |
| DuplicateVertices.MergeVertices | Assets/Scripts/PreciseColliderGenerator.cs:217-255 | the vertex loop succeeds exactly when every non-empty attribute array can be read at the kept positions (else `IndexOutOfRange`), and produces the kept vertices, the carried attributes and the index map |
| DuplicateVertices.RemapTriangles | Assets/Scripts/PreciseColliderGenerator.cs:257-261 | the triangle loop succeeds exactly when every corner is a key of the map, each new corner being the mapped index; otherwise `KeyNotFound` for a corner not in the map |
| DuplicateVertices.RemapSucceedsOnValidCorners | Assets/Scripts/PreciseColliderGenerator.cs:244-260 | the index map holds exactly the original vertex indices, so the triangle loop succeeds exactly on corners that are valid vertex indices |
| DuplicateVertices.MergeArrays | Assets/Scripts/PreciseColliderGenerator.cs:210-262 | the merge throws exactly when an attribute array cannot be read at a kept vertex (`IndexOutOfRange`) or a corner is no vertex index (`KeyNotFound`), and otherwise yields the merged arrays |
| DuplicateVertices.RemoveDuplicateVertices | Assets/Scripts/PreciseColliderGenerator.cs:208-270 | on success the mesh holds the kept vertices, the rewritten triangles and each attribute carried to the kept vertices unless it came out empty; when it throws the mesh is unchanged; `uv2` is never touched |
| MeshSimplification.Usage | Assets/Scripts/PreciseColliderGenerator.cs:282-291 | the usage map's keys are exactly the vertices used by a corner, each with a count of at least one |
| MeshSimplification.UsageCountsOccurrences | Assets/Scripts/PreciseColliderGenerator.cs:284-291 | the count of a vertex is the number of corners naming it |
| MeshSimplification.OccurrencesAreCount | Assets/Scripts/PreciseColliderGenerator.cs:284-291 | the number of corners naming a vertex is its multiplicity in the triangle array |
| MeshSimplification.CountUsage | Assets/Scripts/PreciseColliderGenerator.cs:282-291 | the counting loop builds the usage map |
| MeshSimplification.ListUsage | Assets/Scripts/PreciseColliderGenerator.cs:294 | the list built from the dictionary holds each key once, with its count, and nothing else |
| MeshSimplification.InsertKeepsOrder | Assets/Scripts/PreciseColliderGenerator.cs:295 | inserting an entry into a list sorted by descending usage keeps it sorted |
| MeshSimplification.SortByUses | Assets/Scripts/PreciseColliderGenerator.cs:295 | the sorted list is in descending usage order and a permutation of the input |
| MeshSimplification.KeepMostUsed | Assets/Scripts/PreciseColliderGenerator.cs:298-302 | the loop collects the vertices of the first `Min(maxVertices, Count)` entries |
| MeshSimplification.LeadingSize | Assets/Scripts/PreciseColliderGenerator.cs:299-302 | the first `count` entries of a list with distinct vertices name `Min(count, length)` vertices (none when `count` is negative) |
| MeshSimplification.MostUsedAreKept | Assets/Scripts/PreciseColliderGenerator.cs:293-302 | for any sorted permutation, the kept set holds only used vertices, `Min(maxVertices, used)` of them (none when negative), and every kept vertex is used at least as often as any dropped one |
| MeshSimplification.KeptIndices | Assets/Scripts/PreciseColliderGenerator.cs:308-315 | the kept positions are valid vertex indices, at most as many as the vertices |
| MeshSimplification.KeptIndicesAreKept | Assets/Scripts/PreciseColliderGenerator.cs:308-315 | the kept positions are increasing and are exactly the vertex indices in the keep set |
| MeshSimplification.KeptAtMost | Assets/Scripts/PreciseColliderGenerator.cs:308-315 | no more vertices are kept than the keep set holds |
| MeshSimplification.CompactMappingFindsVertex | Assets/Scripts/PreciseColliderGenerator.cs:310-314 | the mapping sends a kept vertex to the new position that holds it |
| MeshSimplification.CompactVertices | Assets/Scripts/PreciseColliderGenerator.cs:305-315 | the compaction loop yields the kept vertices in order and the mapping from old to new indices |
| MeshSimplification.FilterTriangles | Assets/Scripts/PreciseColliderGenerator.cs:317-331 | the triangle loop is the filter over whole triangles, including the `IndexOutOfRange` on a trailing partial triangle and `KeyNotFound` on a corner outside the mapping |
| MeshSimplification.KeptTriangles | Assets/Scripts/PreciseColliderGenerator.cs:317-331 | when the filter succeeds the corners it reads were whole triangles, and it yields whole triangles, never more corners than it read |
| MeshSimplification.KeptCorners | Assets/Scripts/PreciseColliderGenerator.cs:319-331 | the corners of the kept triangles are whole triangles of kept vertices, never more than the input |
| MeshSimplification.FilterKeepsWholeTriangles | Assets/Scripts/PreciseColliderGenerator.cs:317-331 | on whole triangles of valid indices the filter does not throw, and the new corners point at the kept vertices of exactly the triangles whose three corners are kept |
| MeshSimplification.SimplifyMesh | Assets/Scripts/PreciseColliderGenerator.cs:272-335 | nothing happens at or below `maxVertices`; otherwise a most-used keep set is chosen, and either the filter throws and the mesh is unchanged, or the mesh holds the kept vertices and the filtered triangles; normals, uv, uv2, colors and tangents are untouched |
| MeshSimplification.SimplifiedVertexCount | Assets/Scripts/PreciseColliderGenerator.cs:293-315 | on valid corners the simplified mesh has `Min(maxVertices, number of used vertices)` vertices (none when negative) |
| MeshSimplification.SimplifyValidMesh | Assets/Scripts/PreciseColliderGenerator.cs:317-334 | on whole triangles of valid indices the simplification does not throw, and each new triangle draws the same vertex positions as the original triangle it keeps |
| ColliderOptimization.OptimizeMesh | Assets/Scripts/PreciseColliderGenerator.cs:169-206 | switched off it returns the original mesh. Otherwise it returns a fresh copy whose arrays are staged: the merge of the original arrays when duplicate removal is on (else the original arrays), then, when that stage has more than `maxVertices` vertices, the most-used simplification of it, then recalculated normals and the original `uv2`. The copy has no more vertices than the original or than `maxVertices`. It throws only from a merge that fails or from the simplification's triangle filter, with that filter's error. With no merge and few enough vertices the arrays are copied as they are; a valid mesh never throws and yields valid whole triangles |
| ColliderOptimization.RemoveDuplicates | Assets/Scripts/PreciseColliderGenerator.cs:190-193 | the merge step succeeds exactly when the attributes can be read at the kept vertices and every corner names a vertex, and then leaves the merge of the old arrays; on a throw the mesh is unchanged. It never adds vertices, keeps `uv2`, and on a valid mesh does not throw and leaves valid whole triangles |
| ColliderOptimization.Simplify | Assets/Scripts/PreciseColliderGenerator.cs:195-199 | the simplify step picks a most-used keep set; on success the mesh holds the kept vertices and the filtered triangles with the other attributes untouched, at most `maxVertices` vertices and never more than before; on a throw the mesh is unchanged and the error is the filter's; `uv2` is kept; valid whole triangles stay valid and never throw |
| FlightZones.IntAbs | Assets/Scripts/FlightZone.cs:133 | `Mathf.Abs` on an int is the value or its negation, never negative |
| FlightZones.Abs | Assets/Scripts/FlightZone.cs:292 | `Mathf.Abs` on a float is the value or its negation, never negative |
| FlightZones.Sign | Assets/Scripts/FlightZone.cs:305 | `Mathf.Sign` is 1 or -1 and times the value gives its magnitude |
| FlightZones.Clamp | Assets/Scripts/FlightZone.cs:308 | `Mathf.Clamp` lies between the bounds when they are ordered, and leaves a value inside them alone |
| FlightZones.Clamp01 | Assets/Scripts/FlightZone.cs:379 | `Mathf.Clamp01` lies in [0, 1] and leaves a value inside it alone |
| FlightZones.Max | Assets/Scripts/FlightZone.cs:328 | `Mathf.Max` is one of its arguments and at least both |
| FlightZones.Min | Assets/Scripts/FlightZone.cs:336 | `Mathf.Min` is one of its arguments and at most both |
| FlightZones.ClampedRatio | Assets/Scripts/FlightZone.cs:379-384 | a clamped float quotient lies in [0, 1] and is the exact quotient when that is already in [0, 1] |
| FlightZones.PixelIndex | Assets/Scripts/FlightZone.cs:114-121 | a pixel's array index lies in [0, 4096) and gives back its row and column |
| FlightZones.PixelIndexInjective | Assets/Scripts/FlightZone.cs:117-121 | distinct pixels have distinct indices, so each index is written exactly once |
| FlightZones.CreateArrowTexture | Assets/Scripts/FlightZone.cs:111-146 | the fresh 4096-pixel array is white exactly on the arrow (shaft or head) and clear elsewhere |
| FlightZones.ArrowPixel | Assets/Scripts/FlightZone.cs:124-137 | a pixel is opaque nowhere below row 10, exactly at columns 28 to 35 on rows 10 to 49, and from row 50 up exactly when its distance to column 32 is at most `32 - 2(y - 50)` |
| FlightZones.ArrowHeadNarrows | Assets/Scripts/FlightZone.cs:131-137 | head row `y + 1` is head row `y` less its outermost two columns on each side, since `maxWidth` shrinks by two per row |
| FlightZones.InZone | Assets/Scripts/FlightZone.cs:218-225 | the player is in the zone exactly when the horizontal distance is at most `radius` and the height is within `height` either way |
| FlightZones.InZoneBounds | Assets/Scripts/FlightZone.cs:218-221 | both boundaries count as inside when `height` is non-negative, and the zone is symmetric in height |
| FlightZones.FlightZone.CheckPlayerInZone | Assets/Scripts/FlightZone.cs:203-225 | `playerInZone` becomes the zone test of the x/z distance and the y offset |
| FlightZones.Retention | Assets/Scripts/FlightZone.cs:327-328 | bounce retention is `initial - (n - 1) * decrease` or `minBounceRetention`, whichever is larger, so never below the minimum |
| FlightZones.RetentionDecays | Assets/Scripts/FlightZone.cs:327-328 | with a non-negative decrease, retention never grows from one bounce to the next |
| FlightZones.TargetBounceHeight | Assets/Scripts/FlightZone.cs:330-337 | the target bounce height is at most the retained height, at most 0.3 below `targetHeight + floatZone + 1`, and exactly the retained height otherwise |
| FlightZones.NextBounce | Assets/Scripts/FlightZone.cs:318-367 | per tick: the count grows by one exactly when `wasFalling` and vy > 0, else is unchanged; `wasFalling` becomes vy < 0; the last bounce height changes only on a bounce (to the capped target) or the first falling tick (to the current height) |
| FlightZones.BouncesIn | Assets/Scripts/FlightZone.cs:318-319 | a run of ticks has no more bounces than ticks |
| FlightZones.RunCountsBounces | Assets/Scripts/FlightZone.cs:318-324 | over any run of ticks the count grows by exactly the number of bounces, so it never decreases and is never reset; afterwards `wasFalling` tells whether the last velocity was negative |
| FlightZones.LaunchSpeed | Assets/Scripts/FlightZone.cs:340 | with a true square root and a non-negative height, the launch speed is non-negative and its square is `2 * |gravity| * height`, the speed that rises exactly that height |
| FlightZones.Damp | Assets/Scripts/FlightZone.cs:354-364 | with a damping factor in [0, 1] the damped vertical velocity lies between 0 and the velocity: never faster, never reversed |
| FlightZones.FlightZone.constructor | Assets/Scripts/FlightZone.cs:7-42 | the field initialisers: zone 5 by 10, strength 120, target height 3, float zone 0.3, retention 0.78 less 0.02 per bounce down to 0.1, no bounce yet |
| FlightZones.FlightZone.ApplyDamping | Assets/Scripts/FlightZone.cs:311-370 | the bookkeeping fields advance by one tick of the state machine; the velocity keeps x and z, and its y is the launch speed to the new target on a bounce, else the old y, then damped |
| FlightZones.FlightZone.StabilizationForce | Assets/Scripts/FlightZone.cs:280-309 | the stabilisation force is never larger than `stabilizationForce` in size, and lies in [-stabilizationForce, stabilizationForce] when that is non-negative |
| FlightZones.FlightZone.StabilizationSwitchedOff | Assets/Scripts/FlightZone.cs:285-301 | the force is 0 when vy < -5, when the target is more than 8 away, and inside the float zone after more than ten bounces |
| FlightZones.FlightZone.StabilizationDirection | Assets/Scripts/FlightZone.cs:303-308 | outside the float zone the force points toward the target height; inside it, with at most ten bounces, it points away from it |
| FlightZones.FlightZone.HeightFalloff | Assets/Scripts/FlightZone.cs:389-408 | the height falloff is 1 at or below the zone's level and when the falloff is off, and a fraction in [0, 1] when `Pow` keeps fractions and the exponent is non-negative |
| FlightZones.FlightZone.LiftForce | Assets/Scripts/FlightZone.cs:372-415 | the lift is never negative, and whenever positive it is strength times curve value times height falloff times multiplier |
| FlightZones.FlightZone.LiftAtMostPeak | Assets/Scripts/FlightZone.cs:372-415 | with curve and falloff within [0, 1] and non-negative strength and multiplier, the lift never exceeds `strength * forceMultiplier` |

## Left out

- The other parts of `PreciseColliderGenerator` are engine hierarchy queries, `AddComponent`/`DestroyImmediate` and collider construction: `FindTargetMesh`, `CreateCustomCollider`, the `Create*Collider` methods and `RemoveExistingCollider`.
- `Vector3.Distance(a, b) < vertexMergeThreshold` is the parameter `near`, because float geometry is not modelled.
- ColliderOptimization.OptimizeMesh: `RecalculateBounds` and the copy's `name` are not modelled (bounds and names are not part of the mesh model), and `RecalculateNormals` is a parameter.
- Unity's own validation when a mesh array property is assigned is not modelled. For example, triangles that index past a shortened vertex array make the engine report an error. Assignments are plain field writes.
- MeshSimplification.SortByUses: `List.Sort` is introsort and unstable. The model sorts by insertion, and the properties that matter (MostUsedAreKept) hold for every sorted permutation, so which of several equally used vertices is kept is not pinned down.
- Dictionary enumeration order in `new List<…>(vertexUsage)` is an arbitrary choice in the model.
- `Debug.Log`, `Debug.LogWarning` and `Debug.DrawRay` output is I/O.
- `FlightZone`'s overlay, canvas, sprite and material creation, zone visualisation, gizmos, the per-frame `LookAt`, `Start`/`Update` and `ApplyFlightForce`'s `Rigidbody.AddForce` calls are rendering and engine glue. The rigidbody velocity is a parameter, and `ApplyDamping` returns the new velocity instead of writing it.
- The `FlightZone` fields `minDistance`, `zoneColor`, `overlayHeight`, `overlayPrefab` and `zoneMaterial` are not read by the modelled logic. `forceCurve` is the parameter `curve`.
- `CalculateForceByDistanceAndHeight` computes `horizontalFactor` and never uses it, so it is not modelled.
- FlightZones.ClampedRatio: float division by zero is modelled as giving ±infinity, which the clamp turns into 1 or 0. The NaN of `0 / 0` is modelled as 0, because `real` has no NaN.
- FlightZones.FlightZone.ApplyDamping: `bounceCount` is an unbounded integer, so the 32-bit overflow after 2^31 bounces is not modelled. The literals `0.99f`, `0.3f` and the like are exact decimals, so float rounding is not modelled.
- `ThirdPersonCamera.cs` (quaternion interpolation per frame) and `PlayerController.cs` (input polling and rigidbody movement) are float numerics and engine I/O.
