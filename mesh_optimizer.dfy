/** `OptimizeMesh` of the collider generator: unless optimisation is switched off, a copy
    of the mesh goes through the duplicate-vertex merge (when enabled) and, when it still
    has more than `maxVertices` vertices, the simplification pass; its normals are then
    recalculated. */
module ColliderOptimization {
  import opened UnityTypes
  import opened MeshModel
  import DuplicateVertices
  import MeshSimplification

  /** The optimisation fields of `ColliderSettings`. The merge threshold
      `vertexMergeThreshold` is carried as the vertex test `near` it induces. */
  datatype OptimizationSettings = OptimizationSettings(
    optimizeForPerformance: bool,
    maxVertices: int,
    removeDuplicateVertices: bool,
    near: DuplicateVertices.Near)

  /** `Mesh.RecalculateNormals`, an engine computation of normals from the vertex and
      triangle arrays. */
  type NormalsOf = (seq<Vector3>, seq<int>) -> seq<Vector3>

  /** The most vertices an optimised mesh can have: `maxVertices`, or none when it is
      negative. */
  function VertexBudget(maxVertices: int): int
  {
    if maxVertices < 0 then 0 else maxVertices
  }

  /** Whole triangles over valid vertex indices, with every attribute array empty or one
      value per vertex. */
  predicate Valid(mesh: Mesh)
    reads mesh
  {
    mesh.WellFormed() && |mesh.triangles| % 3 == 0
  }

  /** The merge that `RemoveDuplicateVertices` computes for the arrays `a`. */
  function MergeOf(a: DuplicateVertices.MeshArrays, near: DuplicateVertices.Near): (m: DuplicateVertices.Merge)
    ensures DuplicateVertices.Shaped(|a.vertices|, m)
  {
    DuplicateVertices.Dedup(a.vertices, near, |a.vertices|)
  }

  /** The duplicate-vertex pass succeeds on `a`: every attribute array can be read where
      the merge keeps a vertex, and every corner names a vertex. */
  predicate MergeSucceeds(a: DuplicateVertices.MeshArrays, near: DuplicateVertices.Near)
  {
    DuplicateVertices.AttributesFit(a, MergeOf(a, near)) && InRange(a.triangles, |a.vertices|)
  }

  /** `out` is what the duplicate-vertex pass leaves of `a`. */
  predicate AfterMerge(out: DuplicateVertices.MeshArrays, a: DuplicateVertices.MeshArrays,
                       near: DuplicateVertices.Near)
  {
    MergeSucceeds(a, near) && DuplicateVertices.MergedArrays(out, a, MergeOf(a, near))
  }

  /** `out` is what the simplification pass leaves of `a` when it keeps the vertices
      `keep`: a most-used choice, the kept vertices and the triangles over them, and the
      other attribute arrays as they were. */
  predicate AfterSimplify(out: DuplicateVertices.MeshArrays, a: DuplicateVertices.MeshArrays,
                           keep: set<int>, maxVertices: int)
  {
    && MeshSimplification.MostUsed(keep, MeshSimplification.Usage(a.triangles), maxVertices)
    && MeshSimplification.Simplified(out.vertices, out.triangles, a.vertices, a.triangles, keep)
    && out.normals == a.normals && out.uv == a.uv
    && out.colors == a.colors && out.tangents == a.tangents
  }

  /** `OptimizeMesh(originalMesh)`. An exception thrown by either pass leaves the method,
      so the copy is dropped and `Thrown` is returned; the original mesh is never
      written. The ghost results name the stages: `merged` holds the copy's arrays after
      the duplicate-vertex pass (or the original arrays when it is off), `staged` the
      arrays after the simplification pass (or `merged` when it is skipped), and `keep`
      the vertices the simplification kept. */
  method OptimizeMesh(settings: OptimizationSettings, original: Mesh, recalculateNormals: NormalsOf)
    returns (r: Outcome<Mesh>, ghost merged: DuplicateVertices.MeshArrays,
             ghost staged: DuplicateVertices.MeshArrays, ghost keep: set<int>)
    ensures !settings.optimizeForPerformance ==> r == Ok(original)
    ensures settings.optimizeForPerformance && r.Ok? ==>
      && fresh(r.value)
      && (if settings.removeDuplicateVertices
          then AfterMerge(merged, DuplicateVertices.ArraysOf(original), settings.near)
          else merged == DuplicateVertices.ArraysOf(original))
      && (if |merged.vertices| > settings.maxVertices
          then AfterSimplify(staged, merged, keep, settings.maxVertices)
          else staged == merged)
      && DuplicateVertices.ArraysOf(r.value)
         == staged.(normals := recalculateNormals(staged.vertices, staged.triangles))
      && r.value.uv2 == original.uv2
    ensures settings.optimizeForPerformance && r.Ok? ==>
      && |r.value.vertices| <= |original.vertices|
      && |r.value.vertices| <= VertexBudget(settings.maxVertices)
    ensures r.Thrown? ==> settings.optimizeForPerformance
    ensures settings.optimizeForPerformance && settings.removeDuplicateVertices ==>
      !MergeSucceeds(DuplicateVertices.ArraysOf(original), settings.near) ==> r.Thrown?
    ensures r.Thrown? && (settings.removeDuplicateVertices ==>
                          MergeSucceeds(DuplicateVertices.ArraysOf(original), settings.near)) ==>
      && (if settings.removeDuplicateVertices
          then AfterMerge(merged, DuplicateVertices.ArraysOf(original), settings.near)
          else merged == DuplicateVertices.ArraysOf(original))
      && |merged.vertices| > settings.maxVertices
      && MeshSimplification.MostUsed(keep, MeshSimplification.Usage(merged.triangles), settings.maxVertices)
      && MeshSimplification.KeptTriangles(merged.triangles, 0, keep,
           MeshSimplification.CompactMapping(|merged.vertices|, keep)) == Thrown(r.error)
    ensures settings.optimizeForPerformance && !settings.removeDuplicateVertices
            && |original.vertices| <= settings.maxVertices ==>
      && r.Ok?
      && r.value.vertices == original.vertices && r.value.triangles == original.triangles
      && r.value.uv == original.uv && r.value.colors == original.colors
      && r.value.tangents == original.tangents
    ensures Valid(original) ==> r.Ok?
    ensures Valid(original) && r.Ok? ==>
      InRange(r.value.triangles, |r.value.vertices|) && |r.value.triangles| % 3 == 0
  {
    keep := {};
    merged := DuplicateVertices.ArraysOf(original);
    staged := merged;
    if !settings.optimizeForPerformance {
      return Ok(original), merged, staged, keep;
    }
    var optimized := new Mesh(original.vertices, original.normals, original.uv, original.uv2,
                              original.colors, original.tangents, original.triangles);
    if settings.removeDuplicateVertices {
      var error := RemoveDuplicates(optimized, settings.near);
      if error.Some? {
        return Thrown(error.value), merged, staged, keep;
      }
      merged := DuplicateVertices.ArraysOf(optimized);
    }
    staged := merged;
    if |optimized.vertices| > settings.maxVertices {
      var error;
      error, keep := Simplify(optimized, settings.maxVertices);
      if error.Some? {
        return Thrown(error.value), merged, staged, keep;
      }
      staged := DuplicateVertices.ArraysOf(optimized);
    }
    optimized.normals := recalculateNormals(optimized.vertices, optimized.triangles);
    return Ok(optimized), merged, staged, keep;
  }

  /** The duplicate-vertex pass as the pipeline relies on it: on success the mesh holds
      the merge of its old arrays, which never adds vertices; it never touches `uv2`, and
      on a valid mesh it does not throw and leaves a valid triangle array. */
  method RemoveDuplicates(mesh: Mesh, near: DuplicateVertices.Near) returns (error: Option<MeshError>)
    modifies mesh
    ensures error.Some? ==> unchanged(mesh)
    ensures error.None? <==> MergeSucceeds(old(DuplicateVertices.ArraysOf(mesh)), near)
    ensures error.None? ==> AfterMerge(DuplicateVertices.ArraysOf(mesh), old(DuplicateVertices.ArraysOf(mesh)), near)
    ensures error.None? ==> |mesh.vertices| <= |old(mesh.vertices)|
    ensures mesh.uv2 == old(mesh.uv2)
    ensures old(Valid(mesh)) ==>
      error.None? && InRange(mesh.triangles, |mesh.vertices|) && |mesh.triangles| % 3 == 0
  {
    ghost var vertices, triangles := mesh.vertices, mesh.triangles;
    ghost var valid := Valid(mesh);
    ghost var d := DuplicateVertices.Dedup(vertices, near, |vertices|);
    DuplicateVertices.DedupKeepsOrderedSubsequence(vertices, near, |vertices|);
    if valid {
      DuplicateVertices.CarriedAttributeMatchesVertices(vertices, near, mesh.normals);
      DuplicateVertices.CarriedAttributeMatchesVertices(vertices, near, mesh.uv);
      DuplicateVertices.CarriedAttributeMatchesVertices(vertices, near, mesh.colors);
      DuplicateVertices.CarriedAttributeMatchesVertices(vertices, near, mesh.tangents);
      DuplicateVertices.DedupCornersStayNear(vertices, near, triangles);
    }
    error := DuplicateVertices.RemoveDuplicateVertices(mesh, near);
  }

  /** The simplification pass as the pipeline relies on it: on success the mesh holds a
      most-used choice `keep` of its vertices and the triangles over them, at most
      `maxVertices` vertices (none when that is negative) and never more than before; it
      touches neither `uv2` nor the normals, and on whole triangles over valid indices it
      does not throw and leaves whole triangles over valid indices. */
  method Simplify(mesh: Mesh, maxVertices: int) returns (error: Option<MeshError>, ghost keep: set<int>)
    requires |mesh.vertices| > maxVertices
    modifies mesh
    ensures MeshSimplification.MostUsed(keep, MeshSimplification.Usage(old(mesh.triangles)), maxVertices)
    ensures error.Some? ==>
      && unchanged(mesh)
      && MeshSimplification.KeptTriangles(old(mesh.triangles), 0, keep,
           MeshSimplification.CompactMapping(|old(mesh.vertices)|, keep)) == Thrown(error.value)
    ensures error.None? ==>
      AfterSimplify(DuplicateVertices.ArraysOf(mesh), old(DuplicateVertices.ArraysOf(mesh)), keep, maxVertices)
    ensures error.None? ==> |mesh.vertices| <= |old(mesh.vertices)|
    ensures error.None? ==> |mesh.vertices| <= VertexBudget(maxVertices)
    ensures mesh.uv2 == old(mesh.uv2)
    ensures old(InRange(mesh.triangles, |mesh.vertices|) && |mesh.triangles| % 3 == 0) ==>
      error.None? && InRange(mesh.triangles, |mesh.vertices|) && |mesh.triangles| % 3 == 0
  {
    ghost var vertices, triangles := mesh.vertices, mesh.triangles;
    error, keep := MeshSimplification.SimplifyMesh(mesh, maxVertices);
    MeshSimplification.KeptAtMost(|vertices|, keep);
    if InRange(triangles, |vertices|) && |triangles| % 3 == 0 {
      MeshSimplification.SimplifyValidMesh(vertices, triangles, keep);
    }
  }
}
