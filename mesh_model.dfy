/** The engine mesh as the optimiser sees it, and index-sequence helpers shared by
    the duplicate-vertex merge and the simplification pass. */
module MeshModel {
  import opened UnityTypes

  /** The .NET exceptions the optimiser can raise on malformed input. */
  datatype MeshError =
    | KeyNotFound(key: int)        // a dictionary lookup of a key that was never added
    | IndexOutOfRange(index: int)  // an array read at or past its end

  /** A computation that either finishes or throws. */
  datatype Outcome<+T> = Ok(value: T) | Thrown(error: MeshError)

  /** The vertex and index arrays of a `Mesh`. Reading an array property of an engine
      mesh yields a copy and assigning one replaces it, so each is a `seq` field. */
  class Mesh {
    var vertices: seq<Vector3>
    var normals: seq<Vector3>
    var uv: seq<Vector2>
    var uv2: seq<Vector2>
    var colors: seq<Color>
    var tangents: seq<Vector4>
    var triangles: seq<int>

    constructor (vertices: seq<Vector3>, normals: seq<Vector3>, uv: seq<Vector2>, uv2: seq<Vector2>,
                 colors: seq<Color>, tangents: seq<Vector4>, triangles: seq<int>)
      ensures this.vertices == vertices && this.normals == normals
      ensures this.uv == uv && this.uv2 == uv2 && this.colors == colors
      ensures this.tangents == tangents && this.triangles == triangles
    {
      this.vertices := vertices;
      this.normals := normals;
      this.uv := uv;
      this.uv2 := uv2;
      this.colors := colors;
      this.tangents := tangents;
      this.triangles := triangles;
    }

    /** What the engine guarantees of a mesh it hands out: every per-vertex attribute
        array is empty or as long as the vertex array, and every triangle corner is a
        vertex index. */
    predicate WellFormed()
      reads this
    {
      && (|normals| == 0 || |normals| == |vertices|)
      && (|uv| == 0 || |uv| == |vertices|)
      && (|colors| == 0 || |colors| == |vertices|)
      && (|tangents| == 0 || |tangents| == |vertices|)
      && InRange(triangles, |vertices|)
    }
  }

  /** Every element of `idx` is an index into a sequence of length `n`. */
  predicate InRange(idx: seq<int>, n: int)
  {
    forall k :: 0 <= k < |idx| ==> 0 <= idx[k] < n
  }

  /** `idx` is strictly increasing, so selecting by it keeps the original order. */
  predicate Increasing(idx: seq<int>)
  {
    forall a, b :: 0 <= a < b < |idx| ==> idx[a] < idx[b]
  }

  /** The elements of `s` at the positions listed in `idx`, in that order. */
  function Select<T>(s: seq<T>, idx: seq<int>): (r: seq<T>)
    requires InRange(idx, |s|)
    ensures |r| == |idx|
    ensures forall k :: 0 <= k < |idx| ==> r[k] == s[idx[k]]
  {
    seq(|idx|, k requires 0 <= k < |idx| => s[idx[k]])
  }

  /** Selecting twice is selecting once through the composed positions, and two
      order-preserving selections compose to an order-preserving selection. */
  lemma SelectTwice<T>(s: seq<T>, outer: seq<int>, inner: seq<int>)
    requires InRange(outer, |s|) && InRange(inner, |outer|)
    ensures InRange(Select(outer, inner), |s|)
    ensures Select(Select(s, outer), inner) == Select(s, Select(outer, inner))
    ensures Increasing(outer) && Increasing(inner) ==> Increasing(Select(outer, inner))
  {
  }

  /** Selecting by two position lists one after the other. */
  lemma SelectConcat<T>(s: seq<T>, a: seq<int>, b: seq<int>)
    requires InRange(a, |s|) && InRange(b, |s|)
    ensures InRange(a + b, |s|)
    ensures Select(s, a + b) == Select(s, a) + Select(s, b)
  {
  }
}
