/** `RemoveDuplicateVertices` of the collider generator: keep the first vertex of every
    group of near vertices, carry the per-vertex attributes of the kept ones, and rewrite
    every triangle corner through the old-to-new index map. */
module DuplicateVertices {
  import opened UnityTypes
  import opened MeshModel

  /** `near(a, b)` stands for `Vector3.Distance(a, b) < vertexMergeThreshold`. */
  type Near = (Vector3, Vector3) -> bool

  /** The position in `pool` of the first vertex that `v` is near, if any: what the
      inner search loop of the merge finds. */
  function FirstNear(v: Vector3, pool: seq<Vector3>, near: Near): (r: Option<int>)
    ensures r.Some? ==> 0 <= r.value < |pool|
  {
    if pool == [] then None
    else if near(v, pool[0]) then Some(0)
    else match FirstNear(v, pool[1..], near)
      case None => None
      case Some(j) => Some(j + 1)
  }

  /** The search finds nothing exactly when `v` is near no vertex of the pool, and
      otherwise a vertex `v` is near with none before it. */
  lemma {:induction false} FirstNearFinds(v: Vector3, pool: seq<Vector3>, near: Near)
    ensures FirstNear(v, pool, near).None? <==> forall j :: 0 <= j < |pool| ==> !near(v, pool[j])
    ensures FirstNear(v, pool, near).Some? ==> near(v, pool[FirstNear(v, pool, near).value])
    ensures FirstNear(v, pool, near).Some? ==>
      forall j :: 0 <= j < FirstNear(v, pool, near).value ==> !near(v, pool[j])
  {
    if pool != [] && !near(v, pool[0]) {
      FirstNearFinds(v, pool[1..], near);
      forall j | 1 <= j < |pool|
        ensures pool[j] == pool[1..][j - 1]
      {
      }
    }
  }

  /** The outcome of merging a vertex list: `kept` lists the input positions that
      survive, in their output order; `remap` gives, for every input position, its
      index in the merged list. */
  datatype Merge = Merge(kept: seq<int>, remap: seq<int>)

  /** `m` describes a merge of `n` vertices: one new index per input vertex, each
      naming a kept vertex, and each kept vertex an input position. */
  predicate Shaped(n: int, m: Merge)
  {
    |m.remap| == n && InRange(m.kept, n) && InRange(m.remap, |m.kept|)
  }

  /** The merge of the first `n` vertices of `vs`, built vertex by vertex as the outer
      loop does: a vertex near an already kept one is mapped to the first such; any
      other vertex is kept. */
  function Dedup(vs: seq<Vector3>, near: Near, n: int): (m: Merge)
    requires 0 <= n <= |vs|
    ensures Shaped(n, m)
    decreases n
  {
    if n == 0 then Merge([], [])
    else
      var p := Dedup(vs, near, n - 1);
      match FirstNear(vs[n - 1], Select(vs, p.kept), near)
      case None => Merge(p.kept + [n - 1], p.remap + [|p.kept|])
      case Some(j) => Merge(p.kept, p.remap + [j])
  }

  /** A vertex near no vertex kept before it is kept by the merge of the whole input. */
  lemma DedupKeepsFreshVertex(vs: seq<Vector3>, near: Near, i: int)
    requires 0 <= i < |vs|
    requires FirstNear(vs[i], Select(vs, Dedup(vs, near, i).kept), near).None?
    ensures |Dedup(vs, near, i).kept| < |Dedup(vs, near, |vs|).kept|
    ensures Dedup(vs, near, |vs|).kept[|Dedup(vs, near, i).kept|] == i
  {
    DedupPrefix(vs, near, i + 1, |vs|);
  }

  /** Merging fewer vertices gives a prefix of the merge of more of them. */
  lemma {:induction false} DedupPrefix(vs: seq<Vector3>, near: Near, i: int, n: int)
    requires 0 <= i <= n <= |vs|
    ensures Dedup(vs, near, i).kept <= Dedup(vs, near, n).kept
    ensures Dedup(vs, near, i).remap <= Dedup(vs, near, n).remap
    decreases n - i
  {
    if i < n {
      DedupPrefix(vs, near, i, n - 1);
    }
  }

  /** The kept positions are increasing, no more than the input, start with vertex 0
      when there is any input, and every kept vertex maps to its own position. */
  predicate KeptInOrder(n: int, m: Merge)
    requires Shaped(n, m)
  {
    && Increasing(m.kept)
    && |m.kept| <= n
    && (n > 0 ==> |m.kept| > 0 && m.kept[0] == 0)
    && forall k :: 0 <= k < |m.kept| ==> m.remap[m.kept[k]] == k
  }

  /** The kept vertices form an order-preserving subsequence of the input that begins
      with vertex 0, and each kept vertex maps to its own place in the merged list. */
  lemma {:induction false} DedupKeepsOrderedSubsequence(vs: seq<Vector3>, near: Near, n: int)
    requires 0 <= n <= |vs|
    ensures KeptInOrder(n, Dedup(vs, near, n))
  {
    if n > 0 {
      DedupKeepsOrderedSubsequence(vs, near, n - 1);
    }
  }

  /** No kept vertex is near a kept vertex before it. */
  predicate KeptApart(vs: seq<Vector3>, near: Near, m: Merge)
    requires InRange(m.kept, |vs|)
  {
    forall a, b :: 0 <= a < b < |m.kept| ==> !near(vs[m.kept[b]], vs[m.kept[a]])
  }

  /** After the merge, no kept vertex is near an earlier kept vertex. */
  lemma {:induction false} DedupKeptApart(vs: seq<Vector3>, near: Near, n: int)
    requires 0 <= n <= |vs|
    ensures KeptApart(vs, near, Dedup(vs, near, n))
  {
    if n > 0 {
      DedupKeptApart(vs, near, n - 1);
      var p := Dedup(vs, near, n - 1);
      var pool := Select(vs, p.kept);
      match FirstNear(vs[n - 1], pool, near)
      case Some(_) =>
      case None =>
        FirstNearFinds(vs[n - 1], pool, near);
        forall a | 0 <= a < |p.kept|
          ensures !near(vs[n - 1], vs[p.kept[a]])
        {
          assert pool[a] == vs[p.kept[a]];
        }
    }
  }

  /** Vertex `i` maps to a kept vertex at or before it, near it unless it is that very
      vertex, and near none of the kept vertices before that one. */
  predicate MapsToFirstNear(vs: seq<Vector3>, near: Near, m: Merge, i: int)
    requires 0 <= i < |m.remap| <= |vs| && InRange(m.kept, |vs|) && InRange(m.remap, |m.kept|)
  {
    var target := m.kept[m.remap[i]];
    && target <= i
    && (target != i ==> near(vs[i], vs[target]))
    && forall j :: 0 <= j < m.remap[i] ==> !near(vs[i], vs[m.kept[j]])
  }

  /** Every vertex maps to the first kept vertex it is near, or to itself when it is kept. */
  lemma {:induction false} DedupMapsToFirstNear(vs: seq<Vector3>, near: Near, n: int)
    requires 0 <= n <= |vs|
    ensures forall i :: 0 <= i < n ==> MapsToFirstNear(vs, near, Dedup(vs, near, n), i)
  {
    if n > 0 {
      DedupMapsToFirstNear(vs, near, n - 1);
      var p := Dedup(vs, near, n - 1);
      var pool := Select(vs, p.kept);
      var m := Dedup(vs, near, n);
      assert p.kept <= m.kept && p.remap <= m.remap;
      forall i | 0 <= i < n - 1
        ensures MapsToFirstNear(vs, near, m, i)
      {
        assert MapsToFirstNear(vs, near, p, i);
      }
      forall k | 0 <= k < |p.kept|
        ensures pool[k] == vs[p.kept[k]]
      {
      }
      FirstNearFinds(vs[n - 1], pool, near);
      assert MapsToFirstNear(vs, near, m, n - 1);
    }
  }

  /** Rewriting in-range triangle corners through the merge keeps the triangle list's
      length, yields indices into the merged list, and moves every corner either to the
      very same vertex or to a vertex it is near. */
  lemma DedupCornersStayNear(vs: seq<Vector3>, near: Near, triangles: seq<int>)
    requires InRange(triangles, |vs|)
    ensures |Select(Dedup(vs, near, |vs|).remap, triangles)| == |triangles|
    ensures InRange(Select(Dedup(vs, near, |vs|).remap, triangles), |Dedup(vs, near, |vs|).kept|)
    ensures forall k :: 0 <= k < |triangles| ==>
      CornerStays(vs, near, triangles[k], Select(vs, Dedup(vs, near, |vs|).kept),
                  Select(Dedup(vs, near, |vs|).remap, triangles)[k])
  {
    var m := Dedup(vs, near, |vs|);
    DedupMapsToFirstNear(vs, near, |vs|);
    forall k | 0 <= k < |triangles|
      ensures CornerStays(vs, near, triangles[k], Select(vs, m.kept), Select(m.remap, triangles)[k])
    {
      assert MapsToFirstNear(vs, near, m, triangles[k]);
    }
  }

  /** Corner `t` of the input, rewritten to `t'` of the merged list, names the same
      vertex or one it is near. */
  predicate CornerStays(vs: seq<Vector3>, near: Near, t: int, merged: seq<Vector3>, t': int)
    requires 0 <= t < |vs| && 0 <= t' < |merged|
  {
    merged[t'] == vs[t] || near(vs[t], merged[t'])
  }

  /** Whether an attribute array can be read at every kept position: the source only
      reads it when it is not empty. */
  predicate Fits<T>(attr: seq<T>, kept: seq<int>)
  {
    |attr| == 0 || InRange(kept, |attr|)
  }

  /** The attribute values of the kept vertices, or nothing for an absent attribute. */
  function Carry<T>(attr: seq<T>, kept: seq<int>): seq<T>
    requires Fits(attr, kept)
  {
    if |attr| == 0 then [] else Select(attr, kept)
  }

  /** A rebuilt attribute array is written back to the mesh only when it is not empty. */
  function Replace<T>(current: seq<T>, rebuilt: seq<T>): seq<T>
  {
    if |rebuilt| > 0 then rebuilt else current
  }

  /** On a mesh whose attribute array is as long as its vertex array (or empty), the
      attribute array after the merge is as long as the merged vertex array. */
  lemma CarriedAttributeMatchesVertices<T>(vs: seq<Vector3>, near: Near, attr: seq<T>)
    requires |attr| == 0 || |attr| == |vs|
    ensures Fits(attr, Dedup(vs, near, |vs|).kept)
    ensures |attr| > 0 ==> |Replace(attr, Carry(attr, Dedup(vs, near, |vs|).kept))| == |Dedup(vs, near, |vs|).kept|
  {
    DedupKeepsOrderedSubsequence(vs, near, |vs|);
  }

  /** Appending a kept position to a carried attribute appends that vertex's value. */
  lemma CarryAppend<T>(attr: seq<T>, kept: seq<int>, i: int)
    requires Fits(attr, kept) && 0 <= i && (|attr| == 0 || i < |attr|)
    ensures Fits(attr, kept + [i])
    ensures Carry(attr, kept + [i]) == if |attr| == 0 then [] else Carry(attr, kept) + [attr[i]]
  {
  }

  /** The index map of the first `i` vertices of a merge. */
  function PrefixMap(remap: seq<int>, i: int): map<int, int>
    requires 0 <= i <= |remap|
  {
    map k | 0 <= k < i :: remap[k]
  }

  /** Recording one more vertex in the index map extends it by that vertex's entry. */
  lemma PrefixMapExtend(remap: seq<int>, i: int, x: int)
    requires i == |remap|
    ensures PrefixMap(remap, i)[i := x] == PrefixMap(remap + [x], i + 1)
  {
    var a, b := PrefixMap(remap, i)[i := x], PrefixMap(remap + [x], i + 1);
    assert a.Keys == b.Keys;
    forall k | k in a.Keys ensures a[k] == b[k] {
      if k < i { assert (remap + [x])[k] == remap[k]; }
    }
  }

  /** The rebuilt attribute lists hold the attributes of the kept vertices. */
  predicate Carries(normals: seq<Vector3>, uv: seq<Vector2>, colors: seq<Color>, tangents: seq<Vector4>,
                    kept: seq<int>, newNormals: seq<Vector3>, newUV: seq<Vector2>,
                    newColors: seq<Color>, newTangents: seq<Vector4>)
  {
    && Fits(normals, kept) && Fits(uv, kept) && Fits(colors, kept) && Fits(tangents, kept)
    && newNormals == Carry(normals, kept) && newUV == Carry(uv, kept)
    && newColors == Carry(colors, kept) && newTangents == Carry(tangents, kept)
  }

  /** `if (attr.Length > 0) rebuilt.Add(attr[i])`: appends the value of vertex `i` to a
      rebuilt attribute list when the attribute is present. */
  function Grow<T>(rebuilt: seq<T>, attr: seq<T>, i: int): seq<T>
    requires |attr| == 0 || 0 <= i < |attr|
  {
    if |attr| > 0 then rebuilt + [attr[i]] else rebuilt
  }

  /** Keeping vertex `i` appends its value to every attribute list that is present. */
  lemma CarriesAppend(normals: seq<Vector3>, uv: seq<Vector2>, colors: seq<Color>, tangents: seq<Vector4>,
                      kept: seq<int>, i: int, newNormals: seq<Vector3>, newUV: seq<Vector2>,
                      newColors: seq<Color>, newTangents: seq<Vector4>)
    requires Carries(normals, uv, colors, tangents, kept, newNormals, newUV, newColors, newTangents)
    requires 0 <= i
    requires (|normals| == 0 || i < |normals|) && (|uv| == 0 || i < |uv|)
    requires (|colors| == 0 || i < |colors|) && (|tangents| == 0 || i < |tangents|)
    ensures Carries(normals, uv, colors, tangents, kept + [i], Grow(newNormals, normals, i),
                    Grow(newUV, uv, i), Grow(newColors, colors, i), Grow(newTangents, tangents, i))
  {
    CarryAppend(normals, kept, i);
    CarryAppend(uv, kept, i);
    CarryAppend(colors, kept, i);
    CarryAppend(tangents, kept, i);
  }

  /** The new lists and the index map the merge loop builds. */
  datatype MergedVertices = MergedVertices(
    vertices: seq<Vector3>,
    normals: seq<Vector3>,
    uv: seq<Vector2>,
    colors: seq<Color>,
    tangents: seq<Vector4>,
    vertexMap: map<int, int>)

  /** What the merge loop produces for input whose attribute arrays can all be read at
      the kept positions. */
  function MergedFrom(vertices: seq<Vector3>, normals: seq<Vector3>, uv: seq<Vector2>,
                      colors: seq<Color>, tangents: seq<Vector4>, m: Merge): MergedVertices
    requires Shaped(|vertices|, m)
    requires Fits(normals, m.kept) && Fits(uv, m.kept) && Fits(colors, m.kept) && Fits(tangents, m.kept)
  {
    MergedVertices(
      Select(vertices, m.kept),
      Carry(normals, m.kept), Carry(uv, m.kept), Carry(colors, m.kept), Carry(tangents, m.kept),
      PrefixMap(m.remap, |vertices|))
  }

  /** The inner loop: search the vertices kept so far for the first one `v` is near. */
  method FindDuplicate(v: Vector3, newVertices: seq<Vector3>, near: Near)
    returns (isDuplicate: bool, duplicateIndex: int)
    ensures isDuplicate <==> FirstNear(v, newVertices, near).Some?
    ensures duplicateIndex == if isDuplicate then FirstNear(v, newVertices, near).value else -1
  {
    FirstNearFinds(v, newVertices, near);
    isDuplicate, duplicateIndex := false, -1;
    var j := 0;
    while j < |newVertices|
      invariant 0 <= j <= |newVertices|
      invariant forall k :: 0 <= k < j ==> !near(v, newVertices[k])
    {
      if near(v, newVertices[j]) {
        isDuplicate, duplicateIndex := true, j;
        return;
      }
      j := j + 1;
    }
  }

  /** The state `s` of the merge loop after its first `i` vertices: the merge `p` of
      that prefix, the kept vertices, the attributes carried for them and the index map. */
  predicate MergeLoop(vertices: seq<Vector3>, normals: seq<Vector3>, uv: seq<Vector2>,
                      colors: seq<Color>, tangents: seq<Vector4>, near: Near, i: int, p: Merge,
                      s: MergedVertices)
  {
    && 0 <= i <= |vertices|
    && p == Dedup(vertices, near, i)
    && InRange(p.kept, |vertices|)
    && s.vertices == Select(vertices, p.kept)
    && Carries(normals, uv, colors, tangents, p.kept, s.normals, s.uv, s.colors, s.tangents)
    && |p.remap| == i
    && s.vertexMap == PrefixMap(p.remap, i)
  }

  /** A vertex near an already kept one only adds its entry to the index map. */
  lemma MergeLoopMerges(vertices: seq<Vector3>, normals: seq<Vector3>, uv: seq<Vector2>,
                        colors: seq<Color>, tangents: seq<Vector4>, near: Near, i: int, p: Merge,
                        s: MergedVertices, j: int)
    requires MergeLoop(vertices, normals, uv, colors, tangents, near, i, p, s)
    requires i < |vertices| && FirstNear(vertices[i], s.vertices, near) == Some(j)
    ensures MergeLoop(vertices, normals, uv, colors, tangents, near, i + 1, Merge(p.kept, p.remap + [j]),
                      s.(vertexMap := s.vertexMap[i := j]))
  {
    PrefixMapExtend(p.remap, i, j);
  }

  /** A vertex near no kept one is kept: it is appended with its attributes and mapped
      to its new position. */
  lemma MergeLoopKeeps(vertices: seq<Vector3>, normals: seq<Vector3>, uv: seq<Vector2>,
                       colors: seq<Color>, tangents: seq<Vector4>, near: Near, i: int, p: Merge,
                       s: MergedVertices)
    requires MergeLoop(vertices, normals, uv, colors, tangents, near, i, p, s)
    requires i < |vertices| && FirstNear(vertices[i], s.vertices, near).None?
    requires (|normals| == 0 || i < |normals|) && (|uv| == 0 || i < |uv|)
    requires (|colors| == 0 || i < |colors|) && (|tangents| == 0 || i < |tangents|)
    ensures MergeLoop(vertices, normals, uv, colors, tangents, near, i + 1,
                      Merge(p.kept + [i], p.remap + [|s.vertices|]),
                      MergedVertices(s.vertices + [vertices[i]], Grow(s.normals, normals, i), Grow(s.uv, uv, i),
                                     Grow(s.colors, colors, i), Grow(s.tangents, tangents, i),
                                     s.vertexMap[i := |s.vertices|]))
  {
    assert Dedup(vertices, near, i + 1) == Merge(p.kept + [i], p.remap + [|s.vertices|]);
    SelectConcat(vertices, p.kept, [i]);
    PrefixMapExtend(p.remap, i, |s.vertices|);
    CarriesAppend(normals, uv, colors, tangents, p.kept, i, s.normals, s.uv, s.colors, s.tangents);
  }

  /** A vertex to keep whose attribute cannot be read is kept by the merge of the whole
      input too, so that attribute does not fit the merge. */
  lemma MergeLoopCannotRead(vertices: seq<Vector3>, normals: seq<Vector3>, uv: seq<Vector2>,
                            colors: seq<Color>, tangents: seq<Vector4>, near: Near, i: int, p: Merge,
                            s: MergedVertices)
    requires MergeLoop(vertices, normals, uv, colors, tangents, near, i, p, s)
    requires i < |vertices| && FirstNear(vertices[i], s.vertices, near).None?
    requires (|normals| > 0 && i >= |normals|) || (|uv| > 0 && i >= |uv|)
          || (|colors| > 0 && i >= |colors|) || (|tangents| > 0 && i >= |tangents|)
    ensures !(Fits(normals, Dedup(vertices, near, |vertices|).kept) && Fits(uv, Dedup(vertices, near, |vertices|).kept)
              && Fits(colors, Dedup(vertices, near, |vertices|).kept) && Fits(tangents, Dedup(vertices, near, |vertices|).kept))
  {
    DedupKeepsFreshVertex(vertices, near, i);
  }

  /** When the loop has seen every vertex, its state is the merge of the whole input. */
  lemma MergeLoopDone(vertices: seq<Vector3>, normals: seq<Vector3>, uv: seq<Vector2>,
                      colors: seq<Color>, tangents: seq<Vector4>, near: Near, p: Merge, s: MergedVertices)
    requires MergeLoop(vertices, normals, uv, colors, tangents, near, |vertices|, p, s)
    ensures p == Dedup(vertices, near, |vertices|)
    ensures Fits(normals, p.kept) && Fits(uv, p.kept) && Fits(colors, p.kept) && Fits(tangents, p.kept)
    ensures s == MergedFrom(vertices, normals, uv, colors, tangents, p)
  {
  }

  /** The outer loop: keep or merge every vertex in turn, carrying the attributes of
      kept vertices. It throws when a non-empty attribute array is too short to be read
      at a kept position. `merged` carries the new vertex and attribute lists and the
      index map together. */
  method MergeVertices(vertices: seq<Vector3>, normals: seq<Vector3>, uv: seq<Vector2>,
                       colors: seq<Color>, tangents: seq<Vector4>, near: Near)
    returns (r: Outcome<MergedVertices>)
    ensures r.Ok? <==>
      && Fits(normals, Dedup(vertices, near, |vertices|).kept) && Fits(uv, Dedup(vertices, near, |vertices|).kept)
      && Fits(colors, Dedup(vertices, near, |vertices|).kept) && Fits(tangents, Dedup(vertices, near, |vertices|).kept)
    ensures r.Thrown? ==> r.error.IndexOutOfRange?
    ensures r.Ok? ==> r.value == MergedFrom(vertices, normals, uv, colors, tangents, Dedup(vertices, near, |vertices|))
  {
    var merged := MergedVertices([], [], [], [], [], map[]);
    ghost var p := Merge([], []);
    var i := 0;
    while i < |vertices|
      invariant MergeLoop(vertices, normals, uv, colors, tangents, near, i, p, merged)
    {
      var isDuplicate, duplicateIndex := FindDuplicate(vertices[i], merged.vertices, near);
      if isDuplicate {
        MergeLoopMerges(vertices, normals, uv, colors, tangents, near, i, p, merged, duplicateIndex);
        merged := merged.(vertexMap := merged.vertexMap[i := duplicateIndex]);
        p := Merge(p.kept, p.remap + [duplicateIndex]);
      } else {
        if (|normals| > 0 && i >= |normals|) || (|uv| > 0 && i >= |uv|)
          || (|colors| > 0 && i >= |colors|) || (|tangents| > 0 && i >= |tangents|)
        {
          MergeLoopCannotRead(vertices, normals, uv, colors, tangents, near, i, p, merged);
          return Thrown(IndexOutOfRange(i));
        }
        MergeLoopKeeps(vertices, normals, uv, colors, tangents, near, i, p, merged);
        p := Merge(p.kept + [i], p.remap + [|merged.vertices|]);
        merged := MergedVertices(
          merged.vertices + [vertices[i]],
          Grow(merged.normals, normals, i), Grow(merged.uv, uv, i),
          Grow(merged.colors, colors, i), Grow(merged.tangents, tangents, i),
          merged.vertexMap[i := |merged.vertices|]);
      }
      i := i + 1;
    }
    MergeLoopDone(vertices, normals, uv, colors, tangents, near, p, merged);
    r := Ok(merged);
  }

  /** The triangle loop: look every corner up in the index map, throwing on the first
      corner the map does not contain. */
  method RemapTriangles(triangles: seq<int>, vertexMap: map<int, int>) returns (r: Outcome<seq<int>>)
    ensures r.Ok? <==> forall k :: 0 <= k < |triangles| ==> triangles[k] in vertexMap
    ensures r.Ok? ==> |r.value| == |triangles|
    ensures r.Ok? ==> forall k :: 0 <= k < |triangles| ==> r.value[k] == vertexMap[triangles[k]]
    ensures r.Thrown? ==> r.error.KeyNotFound? && r.error.key !in vertexMap && r.error.key in triangles
  {
    var newTriangles: seq<int> := [];
    var i := 0;
    while i < |triangles|
      invariant 0 <= i <= |triangles|
      invariant forall k :: 0 <= k < i ==> triangles[k] in vertexMap
      invariant |newTriangles| == i
      invariant forall k :: 0 <= k < i ==> newTriangles[k] == vertexMap[triangles[k]]
    {
      if triangles[i] !in vertexMap {
        return Thrown(KeyNotFound(triangles[i]));
      }
      newTriangles := newTriangles + [vertexMap[triangles[i]]];
      i := i + 1;
    }
    r := Ok(newTriangles);
  }

  /** The arrays of a mesh that the merge reads and writes back. */
  datatype MeshArrays = MeshArrays(
    vertices: seq<Vector3>,
    triangles: seq<int>,
    normals: seq<Vector3>,
    uv: seq<Vector2>,
    colors: seq<Color>,
    tangents: seq<Vector4>)

  /** The arrays of `mesh` as the merge reads them. */
  function ArraysOf(mesh: Mesh): MeshArrays
    reads mesh
  {
    MeshArrays(mesh.vertices, mesh.triangles, mesh.normals, mesh.uv, mesh.colors, mesh.tangents)
  }

  /** Every attribute array can be read at the positions the merge `m` keeps. */
  predicate AttributesFit(a: MeshArrays, m: Merge)
  {
    Fits(a.normals, m.kept) && Fits(a.uv, m.kept) && Fits(a.colors, m.kept) && Fits(a.tangents, m.kept)
  }

  /** The merged map holds exactly the original vertex indices, so the triangle loop
      succeeds exactly when every corner is a valid vertex index. */
  lemma RemapSucceedsOnValidCorners(a: MeshArrays, d: Merge, merged: MergedVertices)
    requires Shaped(|a.vertices|, d) && AttributesFit(a, d)
    requires merged == MergedFrom(a.vertices, a.normals, a.uv, a.colors, a.tangents, d)
    ensures InRange(a.triangles, |a.vertices|) <==>
      forall k :: 0 <= k < |a.triangles| ==> a.triangles[k] in merged.vertexMap
    ensures forall t :: t in merged.vertexMap <==> 0 <= t < |a.vertices|
  {
  }

  /** The arrays a mesh holds after a merge `m` of the arrays `a` that did not throw:
      the kept vertices, the corners sent through the index map, and each attribute
      carried to the kept vertices unless it comes out empty. */
  predicate MergedArrays(out: MeshArrays, a: MeshArrays, m: Merge)
    requires Shaped(|a.vertices|, m) && InRange(a.triangles, |a.vertices|) && AttributesFit(a, m)
  {
    out == MeshArrays(
      Select(a.vertices, m.kept),
      Select(m.remap, a.triangles),
      Replace(a.normals, Carry(a.normals, m.kept)),
      Replace(a.uv, Carry(a.uv, m.kept)),
      Replace(a.colors, Carry(a.colors, m.kept)),
      Replace(a.tangents, Carry(a.tangents, m.kept)))
  }

  /** What the two loops build, once written back with the source's guards, is the
      merge `d` applied to the mesh arrays. */
  lemma WrittenBackIsMerge(a: MeshArrays, d: Merge, merged: MergedVertices, rewritten: seq<int>)
    requires Shaped(|a.vertices|, d) && InRange(a.triangles, |a.vertices|) && AttributesFit(a, d)
    requires merged == MergedFrom(a.vertices, a.normals, a.uv, a.colors, a.tangents, d)
    requires |rewritten| == |a.triangles|
    requires forall k :: 0 <= k < |a.triangles| ==> rewritten[k] == merged.vertexMap[a.triangles[k]]
    ensures MergedArrays(MeshArrays(merged.vertices, rewritten, Replace(a.normals, merged.normals),
                                    Replace(a.uv, merged.uv), Replace(a.colors, merged.colors),
                                    Replace(a.tangents, merged.tangents)), a, d)
  {
  }

  /** The body of `RemoveDuplicateVertices` up to its write-back: merge the vertices,
      rewrite the triangles, and compute the arrays the mesh is to hold. It throws
      `IndexOutOfRange` exactly when an attribute array cannot be read at a kept vertex,
      and otherwise `KeyNotFound` for a corner that is not a vertex index. */
  method MergeArrays(a: MeshArrays, near: Near) returns (r: Outcome<MeshArrays>)
    ensures r.Ok? <==>
      AttributesFit(a, Dedup(a.vertices, near, |a.vertices|)) && InRange(a.triangles, |a.vertices|)
    ensures r.Thrown? ==> (r.error.IndexOutOfRange? <==> !AttributesFit(a, Dedup(a.vertices, near, |a.vertices|)))
    ensures r.Thrown? && r.error.KeyNotFound? ==>
      r.error.key in a.triangles && !(0 <= r.error.key < |a.vertices|)
    ensures r.Ok? ==> MergedArrays(r.value, a, Dedup(a.vertices, near, |a.vertices|))
  {
    var merged := MergeVertices(a.vertices, a.normals, a.uv, a.colors, a.tangents, near);
    if merged.Thrown? {
      return Thrown(merged.error);
    }
    var m := merged.value;
    ghost var d := Dedup(a.vertices, near, |a.vertices|);
    RemapSucceedsOnValidCorners(a, d, m);
    var rewritten := RemapTriangles(a.triangles, m.vertexMap);
    if rewritten.Thrown? {
      return Thrown(rewritten.error);
    }
    WrittenBackIsMerge(a, d, m, rewritten.value);
    r := Ok(MeshArrays(m.vertices, rewritten.value, Replace(a.normals, m.normals), Replace(a.uv, m.uv),
                       Replace(a.colors, m.colors), Replace(a.tangents, m.tangents)));
  }

  /** The write-back of the merged arrays to the mesh; `uv2` is left alone. */
  method WriteBack(mesh: Mesh, out: MeshArrays)
    modifies mesh
    ensures ArraysOf(mesh) == out && mesh.uv2 == old(mesh.uv2)
  {
    mesh.vertices := out.vertices;
    mesh.triangles := out.triangles;
    mesh.normals := out.normals;
    mesh.uv := out.uv;
    mesh.colors := out.colors;
    mesh.tangents := out.tangents;
  }

  /** `RemoveDuplicateVertices(mesh)`: on success the mesh holds the merged vertices,
      the carried attributes (an attribute that comes out empty is left as it was, and
      `uv2` is never touched) and the rewritten triangles; when it throws, nothing has
      been assigned yet. */
  method RemoveDuplicateVertices(mesh: Mesh, near: Near) returns (error: Option<MeshError>)
    modifies mesh
    ensures error.Some? ==> unchanged(mesh)
    ensures error.None? <==>
      && AttributesFit(old(ArraysOf(mesh)), Dedup(old(mesh.vertices), near, |old(mesh.vertices)|))
      && InRange(old(mesh.triangles), |old(mesh.vertices)|)
    ensures error.None? ==>
      MergedArrays(ArraysOf(mesh), old(ArraysOf(mesh)), Dedup(old(mesh.vertices), near, |old(mesh.vertices)|))
    ensures mesh.uv2 == old(mesh.uv2)
  {
    var r := MergeArrays(ArraysOf(mesh), near);
    if r.Thrown? {
      return Some(r.error);
    }
    WriteBack(mesh, r.value);
    error := None;
  }
}
