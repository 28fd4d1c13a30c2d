/** `SimplifyMesh`: keep the vertices that the most triangle corners use, at most
    `maxVertices` of them, compact the vertex array and keep only the triangles whose
    three corners all survived. */
module MeshSimplification {
  import opened UnityTypes
  import opened MeshModel

  /** `Mathf.Min` on integers. */
  function Min(a: int, b: int): int
  {
    if a < b then a else b
  }

  // ---------------------------------------------------------------------------
  // Usage counts

  /** The positions of `s` that hold `v`. */
  function Occurrences(s: seq<int>, v: int): set<int>
  {
    set k | 0 <= k < |s| && s[k] == v
  }

  /** The usage dictionary: every vertex index that occurs in the triangle array, with
      the number of corners that name it. */
  function Usage(triangles: seq<int>): (usage: map<int, int>)
    ensures forall v :: v in usage <==> v in triangles
    ensures forall v :: v in usage ==> usage[v] >= 1
  {
    map v | v in triangles :: multiset(triangles)[v]
  }

  /** The count stored for a vertex is the number of corners that name it. */
  lemma {:induction false} UsageCountsOccurrences(triangles: seq<int>, v: int)
    ensures v in Usage(triangles) ==> Usage(triangles)[v] == |Occurrences(triangles, v)|
    ensures v !in Usage(triangles) <==> Occurrences(triangles, v) == {}
  {
    OccurrencesAreCount(triangles, v);
  }

  lemma {:induction false} OccurrencesAreCount(s: seq<int>, v: int)
    ensures multiset(s)[v] == |Occurrences(s, v)|
  {
    if |s| == 0 {
      assert Occurrences(s, v) == {};
    } else {
      var init := s[..|s| - 1];
      OccurrencesAreCount(init, v);
      assert s == init + [s[|s| - 1]];
      if s[|s| - 1] == v {
        assert Occurrences(s, v) == Occurrences(init, v) + {|s| - 1};
      } else {
        assert Occurrences(s, v) == Occurrences(init, v);
      }
    }
  }

  /** One more corner adds one to its vertex's count, or enters it with count 1. */
  lemma UsageAppend(s: seq<int>, x: int)
    ensures Usage(s + [x]) == Usage(s)[x := if x in Usage(s) then Usage(s)[x] + 1 else 1]
  {
    assert multiset(s + [x]) == multiset(s) + multiset{x};
    var after := Usage(s)[x := if x in Usage(s) then Usage(s)[x] + 1 else 1];
    forall v | v in Usage(s + [x])
      ensures v in after && Usage(s + [x])[v] == after[v]
    {
      if v != x {
        assert v in s;
      }
    }
  }

  /** The counting loop over the triangle array. */
  method CountUsage(triangles: seq<int>) returns (usage: map<int, int>)
    ensures usage == Usage(triangles)
  {
    usage := map[];
    var i := 0;
    while i < |triangles|
      invariant 0 <= i <= |triangles|
      invariant usage == Usage(triangles[..i])
    {
      var vertexIndex := triangles[i];
      UsageAppend(triangles[..i], vertexIndex);
      assert triangles[..i + 1] == triangles[..i] + [vertexIndex];
      if vertexIndex in usage {
        usage := usage[vertexIndex := usage[vertexIndex] + 1];
      } else {
        usage := usage[vertexIndex := 1];
      }
      i := i + 1;
    }
    assert triangles[..i] == triangles;
  }

  // ---------------------------------------------------------------------------
  // Listing and sorting the dictionary

  /** A key/value pair of the usage dictionary. */
  datatype UsageEntry = UsageEntry(vertex: int, uses: int)

  /** No two entries name the same vertex. */
  predicate DistinctVertices(entries: seq<UsageEntry>)
  {
    forall a, b :: 0 <= a < b < |entries| ==> entries[a].vertex != entries[b].vertex
  }

  /** The vertices named by `entries`. */
  function VerticesOf(entries: seq<UsageEntry>): set<int>
  {
    set k | 0 <= k < |entries| :: entries[k].vertex
  }

  /** Appending an entry adds its vertex. */
  lemma VerticesOfAppend(entries: seq<UsageEntry>, e: UsageEntry)
    ensures VerticesOf(entries + [e]) == VerticesOf(entries) + {e.vertex}
  {
    var s := entries + [e];
    assert s[|entries|].vertex == e.vertex;
    forall v | v in VerticesOf(entries)
      ensures v in VerticesOf(s)
    {
      var k :| 0 <= k < |entries| && entries[k].vertex == v;
      assert s[k].vertex == v;
    }
  }

  /** A non-empty set has an element. */
  lemma NonEmptyHasElement(s: set<int>)
    requires s != {}
    ensures exists v :: v in s
  {
    if forall x :: x !in s {
      assert false;
    }
  }

  /** `entries` lists the dictionary `usage`: each key exactly once with its value. */
  predicate Lists(entries: seq<UsageEntry>, usage: map<int, int>)
  {
    && (forall k :: 0 <= k < |entries| ==>
          entries[k].vertex in usage && entries[k].uses == usage[entries[k].vertex])
    && DistinctVertices(entries)
    && usage.Keys <= VerticesOf(entries)
  }

  /** The state of the copying loop: `entries` lists the keys of `usage` that are no
      longer `remaining`, each once with its value. */
  predicate Listing(entries: seq<UsageEntry>, remaining: set<int>, usage: map<int, int>)
  {
    && remaining <= usage.Keys
    && (forall k :: 0 <= k < |entries| ==>
          && entries[k].vertex in usage && entries[k].vertex !in remaining
          && entries[k].uses == usage[entries[k].vertex])
    && (forall v :: v in usage && v !in remaining ==> v in VerticesOf(entries))
    && DistinctVertices(entries)
    && |entries| + |remaining| == |usage.Keys|
  }

  /** Copying one more remaining key with its value. */
  lemma ListingStep(entries: seq<UsageEntry>, remaining: set<int>, usage: map<int, int>, v: int)
    requires Listing(entries, remaining, usage) && v in remaining
    ensures Listing(entries + [UsageEntry(v, usage[v])], remaining - {v}, usage)
  {
    VerticesOfAppend(entries, UsageEntry(v, usage[v]));
  }

  /** Once no key remains, the list is a listing of the whole dictionary. */
  lemma ListingDone(entries: seq<UsageEntry>, usage: map<int, int>)
    requires Listing(entries, {}, usage)
    ensures Lists(entries, usage) && |entries| == |usage.Keys|
  {
    assert forall v :: v in usage ==> v in VerticesOf(entries);
  }

  /** Copying the dictionary into a list; the enumeration order of a dictionary is not
      specified, so each key is picked arbitrarily among those not listed yet. */
  method ListUsage(usage: map<int, int>) returns (entries: seq<UsageEntry>)
    ensures Lists(entries, usage)
    ensures |entries| == |usage.Keys|
  {
    entries := [];
    var remaining := usage.Keys;
    while remaining != {}
      invariant Listing(entries, remaining, usage)
      decreases |remaining|
    {
      NonEmptyHasElement(remaining);
      var v :| v in remaining;
      ListingStep(entries, remaining, usage, v);
      entries := entries + [UsageEntry(v, usage[v])];
      remaining := remaining - {v};
    }
    ListingDone(entries, usage);
  }

  /** The order `Sort((a, b) => b.Value.CompareTo(a.Value))` establishes. */
  predicate ByUsesDescending(s: seq<UsageEntry>)
  {
    forall i, j :: 0 <= i < j < |s| ==> s[i].uses >= s[j].uses
  }

  /** Inserts `e` in front of the first entry less used than it. */
  function InsertByUses(e: UsageEntry, s: seq<UsageEntry>): (r: seq<UsageEntry>)
    ensures multiset(r) == multiset(s) + multiset{e}
  {
    if |s| == 0 then [e]
    else if s[0].uses >= e.uses then
      assert s == [s[0]] + s[1..];
      [s[0]] + InsertByUses(e, s[1..])
    else [e] + s
  }

  /** Inserting into a list sorted by descending use keeps it sorted. */
  lemma {:induction false} InsertKeepsOrder(e: UsageEntry, s: seq<UsageEntry>)
    requires ByUsesDescending(s)
    ensures ByUsesDescending(InsertByUses(e, s))
  {
    if |s| > 0 && s[0].uses >= e.uses {
      var rest := InsertByUses(e, s[1..]);
      InsertKeepsOrder(e, s[1..]);
      var r := [s[0]] + rest;
      forall i, j | 0 <= i < j < |r|
        ensures r[i].uses >= r[j].uses
      {
        if i == 0 {
          assert r[j] == rest[j - 1] && rest[j - 1] in multiset(s[1..]) + multiset{e};
        } else {
          assert r[i] == rest[i - 1] && r[j] == rest[j - 1];
        }
      }
    }
  }

  /** `List.Sort` by descending use, as an insertion sort: a permutation of its input in
      descending order of use. Which of two equally used entries comes first is not
      specified by `List.Sort`, and no property below depends on it. */
  function SortByUses(s: seq<UsageEntry>): (r: seq<UsageEntry>)
    ensures ByUsesDescending(r)
    ensures multiset(r) == multiset(s)
  {
    if |s| == 0 then []
    else
      assert s == [s[0]] + s[1..];
      var sorted := SortByUses(s[1..]);
      InsertKeepsOrder(s[0], sorted);
      InsertByUses(s[0], sorted)
  }

  // ---------------------------------------------------------------------------
  // Keeping the most used vertices

  /** The vertices of the first `count` entries. */
  function Leading(sorted: seq<UsageEntry>, count: int): set<int>
  {
    set k | 0 <= k < |sorted| && k < count :: sorted[k].vertex
  }

  /** The loop filling `keepVertices` with the first `Mathf.Min(maxVertices, Count)`
      entries of the sorted list. */
  method KeepMostUsed(sorted: seq<UsageEntry>, maxVertices: int) returns (keep: set<int>)
    ensures keep == Leading(sorted, maxVertices)
  {
    keep := {};
    var i := 0;
    while i < Min(maxVertices, |sorted|)
      invariant 0 <= i <= |sorted|
      invariant i == 0 || i <= maxVertices
      invariant keep == Leading(sorted, i)
    {
      assert Leading(sorted, i + 1) == Leading(sorted, i) + {sorted[i].vertex};
      keep := keep + {sorted[i].vertex};
      i := i + 1;
    }
    assert Leading(sorted, i) == Leading(sorted, maxVertices);
  }

  /** `keep` is a choice of the most used referenced vertices: only referenced vertices,
      as many as `maxVertices` allows, and none less used than a vertex left out. */
  predicate MostUsed(keep: set<int>, usage: map<int, int>, maxVertices: int)
  {
    && keep <= usage.Keys
    && |keep| == (if maxVertices < 0 then 0 else Min(maxVertices, |usage.Keys|))
    && forall u, w :: u in keep && w in usage && w !in keep ==> usage[u] >= usage[w]
  }

  /** A list with distinct vertices holds any entry at most once. */
  lemma {:induction false} DistinctCountsOnce(s: seq<UsageEntry>, e: UsageEntry)
    requires DistinctVertices(s)
    ensures multiset(s)[e] <= 1
  {
    if |s| > 0 {
      var init := s[..|s| - 1];
      assert s == init + [s[|s| - 1]];
      assert DistinctVertices(init);
      DistinctCountsOnce(init, e);
      if s[|s| - 1] == e {
        assert e !in init;
      }
    }
  }

  /** Reordering a listing of a dictionary gives a listing of the same dictionary. */
  lemma PermutedListing(entries: seq<UsageEntry>, sorted: seq<UsageEntry>, usage: map<int, int>)
    requires Lists(entries, usage)
    requires multiset(sorted) == multiset(entries)
    ensures Lists(sorted, usage)
  {
    forall k | 0 <= k < |sorted|
      ensures sorted[k].vertex in usage && sorted[k].uses == usage[sorted[k].vertex]
    {
      assert sorted[k] in multiset(entries);
    }
    forall a, b | 0 <= a < b < |sorted|
      ensures sorted[a].vertex != sorted[b].vertex
    {
      if sorted[a].vertex == sorted[b].vertex {
        assert sorted[a] == sorted[b];
        assert sorted == sorted[..b] + sorted[b..];
        assert sorted[a] in sorted[..b] && sorted[b] in sorted[b..];
        assert multiset(sorted)[sorted[a]] >= 2;
        DistinctCountsOnce(entries, sorted[a]);
        assert false;
      }
    }
    forall v | v in usage
      ensures v in VerticesOf(sorted)
    {
      var j :| 0 <= j < |entries| && entries[j].vertex == v;
      assert entries[j] in multiset(sorted);
      var k :| 0 <= k < |sorted| && sorted[k] == entries[j];
    }
  }

  /** The first `count` vertices of a list with distinct vertices are `count` vertices
      (or all of them). */
  lemma {:induction false} LeadingSize(s: seq<UsageEntry>, count: int)
    requires DistinctVertices(s)
    ensures |Leading(s, count)| == if count < 0 then 0 else Min(count, |s|)
    decreases if count < 0 then 0 else count
  {
    if count <= 0 {
      assert Leading(s, count) == {};
    } else if count > |s| {
      assert Leading(s, count) == Leading(s, |s|);
      LeadingSize(s, |s|);
    } else {
      LeadingSize(s, count - 1);
      assert Leading(s, count) == Leading(s, count - 1) + {s[count - 1].vertex};
      assert s[count - 1].vertex !in Leading(s, count - 1);
    }
  }

  /** Taking the first `maxVertices` vertices of any descending sort of the usage
      dictionary keeps the most used vertices, whatever order the ties were put in. */
  lemma MostUsedAreKept(entries: seq<UsageEntry>, sorted: seq<UsageEntry>, usage: map<int, int>,
                        maxVertices: int)
    requires Lists(entries, usage) && |entries| == |usage.Keys|
    requires multiset(sorted) == multiset(entries) && ByUsesDescending(sorted)
    ensures MostUsed(Leading(sorted, maxVertices), usage, maxVertices)
  {
    PermutedListing(entries, sorted, usage);
    var keep := Leading(sorted, maxVertices);
    assert |sorted| == |entries| by {
      assert |multiset(sorted)| == |multiset(entries)|;
    }
    LeadingSize(sorted, maxVertices);
    forall u, w | u in keep && w in usage && w !in keep
      ensures usage[u] >= usage[w]
    {
      var i :| 0 <= i < |sorted| && i < maxVertices && sorted[i].vertex == u;
      assert w in VerticesOf(sorted);
      var j :| 0 <= j < |sorted| && sorted[j].vertex == w;
      assert !(j < maxVertices);
    }
  }

  // ---------------------------------------------------------------------------
  // Compacting the vertex array

  /** The vertex indices below `n` that are kept, in increasing order: the vertices
      the compaction loop copies, in the order it copies them. */
  function KeptIndices(n: int, keep: set<int>): (r: seq<int>)
    ensures InRange(r, n)
    ensures |r| <= if n < 0 then 0 else n
    decreases n
  {
    if n <= 0 then [] else KeptIndices(n - 1, keep) + (if n - 1 in keep then [n - 1] else [])
  }

  /** The compaction copies the kept vertices below `n`, each once, in increasing order. */
  lemma {:induction false} KeptIndicesAreKept(n: int, keep: set<int>)
    ensures Increasing(KeptIndices(n, keep))
    ensures forall i :: i in KeptIndices(n, keep) <==> 0 <= i < n && i in keep
    decreases n
  {
    if n > 0 {
      KeptIndicesAreKept(n - 1, keep);
    }
  }

  /** The kept indices below `i` start the kept indices below any larger `n`. */
  lemma {:induction false} KeptIndicesPrefix(i: int, n: int, keep: set<int>)
    requires 0 <= i <= n
    ensures KeptIndices(i, keep) <= KeptIndices(n, keep)
    decreases n
  {
    if i < n {
      KeptIndicesPrefix(i, n - 1, keep);
    }
  }

  /** The kept vertices below `n`, as a set. */
  function KeptBelow(n: int, keep: set<int>): set<int>
  {
    set i | 0 <= i < n && i in keep
  }

  /** The compacted vertex array holds one vertex per kept index below `n`. */
  lemma {:induction false} KeptIndicesCount(n: int, keep: set<int>)
    ensures |KeptIndices(n, keep)| == |KeptBelow(n, keep)|
    decreases n
  {
    if n <= 0 {
      assert KeptBelow(n, keep) == {};
    } else {
      KeptIndicesCount(n - 1, keep);
      if n - 1 in keep {
        assert KeptBelow(n, keep) == KeptBelow(n - 1, keep) + {n - 1};
      } else {
        assert KeptBelow(n, keep) == KeptBelow(n - 1, keep);
      }
    }
  }

  /** The compacted vertex array is no longer than the set of vertices to keep. */
  lemma KeptAtMost(n: int, keep: set<int>)
    ensures |KeptIndices(n, keep)| <= |keep|
  {
    KeptIndicesCount(n, keep);
    var below := KeptBelow(n, keep);
    assert keep == below + (keep - below);
  }

  /** `vertexMapping` as the compaction loop leaves it after the indices below `n`:
      each kept index maps to the number of kept indices before it. */
  function CompactMapping(n: int, keep: set<int>): map<int, int>
  {
    map i | 0 <= i < n && i in keep :: |KeptIndices(i, keep)|
  }

  /** A kept vertex maps to its own position in the compacted vertex array. */
  lemma CompactMappingFindsVertex(n: int, keep: set<int>, i: int)
    requires i in CompactMapping(n, keep)
    ensures 0 <= CompactMapping(n, keep)[i] < |KeptIndices(n, keep)|
    ensures KeptIndices(n, keep)[CompactMapping(n, keep)[i]] == i
  {
    KeptIndicesPrefix(i + 1, n, keep);
    assert KeptIndices(i + 1, keep) == KeptIndices(i, keep) + [i];
  }

  /** One more step of the compaction loop on a kept index: it is mapped to the
      position it lands at. */
  lemma CompactStepKept(keep: set<int>, i: int)
    requires 0 <= i && i in keep
    ensures CompactMapping(i + 1, keep) == CompactMapping(i, keep)[i := |KeptIndices(i, keep)|]
  {
    assert CompactMapping(i + 1, keep).Keys == CompactMapping(i, keep)[i := |KeptIndices(i, keep)|].Keys;
  }

  /** One more step of the compaction loop on a dropped index: nothing changes. */
  lemma CompactStepDropped(keep: set<int>, i: int)
    requires 0 <= i && i !in keep
    ensures CompactMapping(i + 1, keep) == CompactMapping(i, keep)
  {
    assert CompactMapping(i + 1, keep).Keys == CompactMapping(i, keep).Keys;
  }

  /** The loop copying the kept vertices in index order and recording where each went. */
  method CompactVertices(vertices: seq<Vector3>, keep: set<int>)
    returns (newVertices: seq<Vector3>, vertexMapping: map<int, int>)
    ensures newVertices == Select(vertices, KeptIndices(|vertices|, keep))
    ensures vertexMapping == CompactMapping(|vertices|, keep)
  {
    newVertices := [];
    vertexMapping := map[];
    var i := 0;
    while i < |vertices|
      invariant 0 <= i <= |vertices|
      invariant newVertices == Select(vertices, KeptIndices(i, keep))
      invariant vertexMapping == CompactMapping(i, keep)
    {
      if i in keep {
        CompactStepKept(keep, i);
        assert KeptIndices(i + 1, keep) == KeptIndices(i, keep) + [i];
        SelectConcat(vertices, KeptIndices(i, keep), [i]);
        vertexMapping := vertexMapping[i := |newVertices|];
        newVertices := newVertices + [vertices[i]];
      } else {
        CompactStepDropped(keep, i);
      }
      i := i + 1;
    }
  }

  // ---------------------------------------------------------------------------
  // Filtering the triangles

  /** Puts `prefix` in front of a result, leaving an exception as it is. */
  function Prepend(prefix: seq<int>, o: Outcome<seq<int>>): (r: Outcome<seq<int>>)
    ensures r.Ok? <==> o.Ok?
    ensures r.Ok? ==> r.value == prefix + o.value
    ensures r.Thrown? ==> r == o
  {
    match o
    case Ok(s) => Ok(prefix + s)
    case Thrown(_) => o
  }

  lemma PrependNothing(o: Outcome<seq<int>>)
    ensures Prepend([], o) == o
  {
    if o.Ok? {
      assert [] + o.value == o.value;
    }
  }

  lemma PrependTwice(a: seq<int>, b: seq<int>, o: Outcome<seq<int>>)
    ensures Prepend(a, Prepend(b, o)) == Prepend(a + b, o)
  {
    if o.Ok? {
      assert a + (b + o.value) == (a + b) + o.value;
    }
  }

  /** The triangle loop from position `i`, stepping by three: a triangle whose three
      corners are kept is appended with its corners looked up in `mapping`, any other is
      dropped. Reading past the end of the array (a length that is not a multiple of
      three) or looking up a corner `mapping` lacks throws, at the first place the loop
      would. */
  function KeptTriangles(tris: seq<int>, i: int, keep: set<int>, mapping: map<int, int>)
    : (r: Outcome<seq<int>>)
    requires 0 <= i <= |tris|
    ensures r.Ok? ==> (|tris| - i) % 3 == 0 && |r.value| % 3 == 0 && |r.value| <= |tris| - i
    decreases |tris| - i
  {
    if i == |tris| then Ok([])
    else if i + 1 >= |tris| then Thrown(IndexOutOfRange(i + 1))
    else if i + 2 >= |tris| then Thrown(IndexOutOfRange(i + 2))
    else if tris[i] in keep && tris[i + 1] in keep && tris[i + 2] in keep then
      if tris[i] !in mapping then Thrown(KeyNotFound(tris[i]))
      else if tris[i + 1] !in mapping then Thrown(KeyNotFound(tris[i + 1]))
      else if tris[i + 2] !in mapping then Thrown(KeyNotFound(tris[i + 2]))
      else Prepend([mapping[tris[i]], mapping[tris[i + 1]], mapping[tris[i + 2]]],
                   KeptTriangles(tris, i + 3, keep, mapping))
    else KeptTriangles(tris, i + 3, keep, mapping)
  }

  /** The triangle loop of `SimplifyMesh`. */
  method FilterTriangles(triangles: seq<int>, keep: set<int>, mapping: map<int, int>)
    returns (r: Outcome<seq<int>>)
    ensures r == KeptTriangles(triangles, 0, keep, mapping)
  {
    var newTriangles: seq<int> := [];
    var i := 0;
    PrependNothing(KeptTriangles(triangles, 0, keep, mapping));
    while i < |triangles|
      invariant 0 <= i <= |triangles|
      invariant KeptTriangles(triangles, 0, keep, mapping)
             == Prepend(newTriangles, KeptTriangles(triangles, i, keep, mapping))
      decreases |triangles| - i
    {
      var v1 := triangles[i];
      if i + 1 >= |triangles| {
        return Thrown(IndexOutOfRange(i + 1));
      }
      var v2 := triangles[i + 1];
      if i + 2 >= |triangles| {
        return Thrown(IndexOutOfRange(i + 2));
      }
      var v3 := triangles[i + 2];
      if v1 in keep && v2 in keep && v3 in keep {
        if v1 !in mapping {
          return Thrown(KeyNotFound(v1));
        }
        if v2 !in mapping {
          return Thrown(KeyNotFound(v2));
        }
        if v3 !in mapping {
          return Thrown(KeyNotFound(v3));
        }
        PrependTwice(newTriangles, [mapping[v1], mapping[v2], mapping[v3]],
                     KeptTriangles(triangles, i + 3, keep, mapping));
        newTriangles := newTriangles + [mapping[v1], mapping[v2], mapping[v3]];
      }
      i := i + 3;
    }
    assert newTriangles + [] == newTriangles;
    return Ok(newTriangles);
  }

  /** Reference definition: the triangles of `tris` from position `i` on, in order,
      whose three corners are all kept. */
  function KeptCorners(tris: seq<int>, i: int, keep: set<int>): (r: seq<int>)
    requires 0 <= i <= |tris|
    ensures |r| % 3 == 0 && |r| <= |tris| - i
    ensures forall k :: 0 <= k < |r| ==> r[k] in keep
    decreases |tris| - i
  {
    if |tris| - i < 3 then []
    else (if tris[i] in keep && tris[i + 1] in keep && tris[i + 2] in keep
          then [tris[i], tris[i + 1], tris[i + 2]] else [])
         + KeptCorners(tris, i + 3, keep)
  }

  /** `mapping` sends every kept vertex below `n` to its position in `kept`. */
  predicate Locates(mapping: map<int, int>, kept: seq<int>, keep: set<int>, n: int)
  {
    forall v :: 0 <= v < n && v in keep ==> v in mapping && 0 <= mapping[v] < |kept| && kept[mapping[v]] == v
  }

  /** The compaction's index map locates every kept vertex in the compacted array. */
  lemma CompactMappingLocates(n: int, keep: set<int>)
    ensures Locates(CompactMapping(n, keep), KeptIndices(n, keep), keep, n)
  {
    forall v | 0 <= v < n && v in keep
      ensures v in CompactMapping(n, keep) && 0 <= CompactMapping(n, keep)[v] < |KeptIndices(n, keep)|
      ensures KeptIndices(n, keep)[CompactMapping(n, keep)[v]] == v
    {
      CompactMappingFindsVertex(n, keep, v);
    }
  }

  /** On whole triangles over valid vertex indices the loop does not throw, every index
      it writes is a position in the compacted vertex array, and following those
      positions back gives exactly the kept triangles of the input. */
  lemma {:induction false} FilterKeepsWholeTriangles(tris: seq<int>, i: int, keep: set<int>, n: int,
                                                     mapping: map<int, int>, kept: seq<int>)
    requires 0 <= i <= |tris| && (|tris| - i) % 3 == 0
    requires InRange(tris, n) && Locates(mapping, kept, keep, n)
    ensures KeptTriangles(tris, i, keep, mapping).Ok?
    ensures InRange(KeptTriangles(tris, i, keep, mapping).value, |kept|)
    ensures Select(kept, KeptTriangles(tris, i, keep, mapping).value) == KeptCorners(tris, i, keep)
    decreases |tris| - i
  {
    if i < |tris| {
      assert i + 3 <= |tris|;
      FilterKeepsWholeTriangles(tris, i + 3, keep, n, mapping, kept);
      var rest := KeptTriangles(tris, i + 3, keep, mapping).value;
      if tris[i] in keep && tris[i + 1] in keep && tris[i + 2] in keep {
        RemappedTriangle(kept, mapping[tris[i]], mapping[tris[i + 1]], mapping[tris[i + 2]], rest,
                         tris[i], tris[i + 1], tris[i + 2]);
      }
    }
  }

  /** Three corners that each lead back to an input corner, in front of the rest. */
  lemma RemappedTriangle(kept: seq<int>, a: int, b: int, c: int, rest: seq<int>, x: int, y: int, z: int)
    requires 0 <= a < |kept| && 0 <= b < |kept| && 0 <= c < |kept| && InRange(rest, |kept|)
    requires kept[a] == x && kept[b] == y && kept[c] == z
    ensures InRange([a, b, c] + rest, |kept|)
    ensures Select(kept, [a, b, c] + rest) == [x, y, z] + Select(kept, rest)
  {
    SelectConcat(kept, [a, b, c], rest);
  }

  // ---------------------------------------------------------------------------
  // The pass

  /** The arrays `SimplifyMesh` writes back: the kept vertices in index order and the
      filtered, remapped triangles. */
  predicate Simplified(newVertices: seq<Vector3>, newTriangles: seq<int>,
                       vertices: seq<Vector3>, triangles: seq<int>, keep: set<int>)
  {
    && newVertices == Select(vertices, KeptIndices(|vertices|, keep))
    && KeptTriangles(triangles, 0, keep, CompactMapping(|vertices|, keep)) == Ok(newTriangles)
  }

  /** `SimplifyMesh(mesh)`: nothing happens unless the mesh has more than `maxVertices`
      vertices; otherwise a most-used choice `keep` of vertices is kept and the
      triangles filtered. When the triangle loop throws, nothing has been assigned.
      Only the vertex and triangle arrays are ever written. */
  method SimplifyMesh(mesh: Mesh, maxVertices: int) returns (error: Option<MeshError>, ghost keep: set<int>)
    modifies mesh
    ensures |old(mesh.vertices)| <= maxVertices ==> error.None? && unchanged(mesh)
    ensures |old(mesh.vertices)| > maxVertices ==>
      && MostUsed(keep, Usage(old(mesh.triangles)), maxVertices)
      && (error.None? <==>
            KeptTriangles(old(mesh.triangles), 0, keep, CompactMapping(|old(mesh.vertices)|, keep)).Ok?)
    ensures error.Some? ==>
      && unchanged(mesh)
      && KeptTriangles(old(mesh.triangles), 0, keep, CompactMapping(|old(mesh.vertices)|, keep))
         == Thrown(error.value)
    ensures error.None? && |old(mesh.vertices)| > maxVertices ==>
      Simplified(mesh.vertices, mesh.triangles, old(mesh.vertices), old(mesh.triangles), keep)
    ensures mesh.normals == old(mesh.normals) && mesh.uv == old(mesh.uv) && mesh.uv2 == old(mesh.uv2)
    ensures mesh.colors == old(mesh.colors) && mesh.tangents == old(mesh.tangents)
  {
    var vertices := mesh.vertices;
    var triangles := mesh.triangles;
    keep := {};
    if |vertices| <= maxVertices {
      return None, keep;
    }
    var usage := CountUsage(triangles);
    var entries := ListUsage(usage);
    var sorted := SortByUses(entries);
    var keepVertices := KeepMostUsed(sorted, maxVertices);
    MostUsedAreKept(entries, sorted, usage, maxVertices);
    keep := keepVertices;
    var newVertices, vertexMapping := CompactVertices(vertices, keepVertices);
    var newTriangles := FilterTriangles(triangles, keepVertices, vertexMapping);
    if newTriangles.Thrown? {
      return Some(newTriangles.error), keep;
    }
    mesh.vertices := newVertices;
    mesh.triangles := newTriangles.value;
    error := None;
  }

  /** Simplification keeps exactly `Mathf.Min(maxVertices, n)` vertices of a mesh whose
      triangles name only its own vertices, where n is the number of distinct referenced
      vertices. */
  lemma SimplifiedVertexCount(vertices: seq<Vector3>, triangles: seq<int>, keep: set<int>, maxVertices: int)
    requires InRange(triangles, |vertices|)
    requires MostUsed(keep, Usage(triangles), maxVertices)
    ensures |KeptIndices(|vertices|, keep)|
         == if maxVertices < 0 then 0 else Min(maxVertices, |Usage(triangles).Keys|)
  {
    KeptIndicesCount(|vertices|, keep);
    assert KeptBelow(|vertices|, keep) == keep;
  }

  /** On a mesh whose triangle array is whole triangles over valid vertex indices,
      simplification does not throw, and writes whole triangles over the new vertex
      array that are exactly the input triangles with all three corners kept. */
  lemma SimplifyValidMesh(vertices: seq<Vector3>, triangles: seq<int>, keep: set<int>)
    requires InRange(triangles, |vertices|) && |triangles| % 3 == 0
    ensures KeptTriangles(triangles, 0, keep, CompactMapping(|vertices|, keep)).Ok?
    ensures InRange(KeptTriangles(triangles, 0, keep, CompactMapping(|vertices|, keep)).value,
                    |KeptIndices(|vertices|, keep)|)
    ensures Select(KeptIndices(|vertices|, keep), KeptTriangles(triangles, 0, keep, CompactMapping(|vertices|, keep)).value)
         == KeptCorners(triangles, 0, keep)
    ensures InRange(KeptCorners(triangles, 0, keep), |vertices|)
    ensures Select(Select(vertices, KeptIndices(|vertices|, keep)),
                   KeptTriangles(triangles, 0, keep, CompactMapping(|vertices|, keep)).value)
         == Select(vertices, KeptCorners(triangles, 0, keep))
  {
    var kept := KeptIndices(|vertices|, keep);
    var mapping := CompactMapping(|vertices|, keep);
    CompactMappingLocates(|vertices|, keep);
    FilterKeepsWholeTriangles(triangles, 0, keep, |vertices|, mapping, kept);
    SelectTwice(vertices, kept, KeptTriangles(triangles, 0, keep, mapping).value);
  }
}
