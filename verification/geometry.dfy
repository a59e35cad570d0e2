/**
 The state of the icosahedron mesh builder as a value, and what one refinement
 pass and the whole construction do to it.

 Coordinates are not computed: a point records how it was made (a normalised
 base coordinate triple, or the normalised average of two earlier points), so
 the model keeps exactly the dependencies the builder has and none of the
 floating-point arithmetic.
 */
module Geometry {

  /** One raw base coordinate; T stands for the golden ratio (1 + sqrt 5) / 2. */
  datatype Coord = Zero | One | MinusOne | T | MinusT

  /**
   A stored vertex, recorded by how it was made; every stored vertex is
   normalised onto the unit sphere when it is added:
   - Corner(x, y, z): the raw base triple (x, y, z), divided by its length;
   - Midpoint(a, b): the average of the stored vertices a and b, divided by its length.
   */
  datatype Point =
    | Corner(x: Coord, y: Coord, z: Coord)
    | Midpoint(a: Point, b: Point)

  /**
   The builder's state: the vertex list, the flat triangle index list
   (three entries per triangle) and the midpoint cache.
   */
  datatype Mesh = Mesh(points: seq<Point>, indices: seq<nat>, cache: map<int, nat>)

  /** Whole triangles only, no dangling index, no cached index past the vertex list. */
  ghost predicate WellFormed(m: Mesh)
  {
    |m.indices| % 3 == 0 && IndicesBelow(m.indices, |m.points|) && CacheBelow(m.cache, |m.points|)
  }

  /** Every entry of `s` is below `bound`. */
  ghost predicate IndicesBelow(s: seq<nat>, bound: nat)
  {
    forall k :: 0 <= k < |s| ==> s[k] < bound
  }

  /** Every cached index is below `bound`. */
  ghost predicate CacheBelow(cache: map<int, nat>, bound: nat)
  {
    forall key :: key in cache ==> cache[key] < bound
  }

  // ---------------------------------------------------------------------------
  // The cache key, with JavaScript's 32-bit shift semantics written out
  // ---------------------------------------------------------------------------

  const TwoTo31: int := 0x8000_0000
  const TwoTo32: int := 0x1_0000_0000

  /** JavaScript's ToInt32: reduce modulo 2^32 into the signed 32-bit range. */
  function ToInt32(x: int): (r: int)
    ensures -TwoTo31 <= r < TwoTo31
    ensures (r - x) % TwoTo32 == 0
  {
    var w := x % TwoTo32;
    if w < TwoTo31 then w else w - TwoTo32
  }

  function Pow(b: nat, e: nat): nat
  {
    if e == 0 then 1 else b * Pow(b, e - 1)
  }

  /** `x << count` on numbers: both operands go through 32-bit conversion and
      only the low five bits of the count are used. */
  function ShiftLeft(x: int, count: nat): (r: int)
    ensures count % 32 == 0 ==> r == ToInt32(x)
  {
    ToInt32(ToInt32(x) * Pow(2, count % 32))
  }

  /** The cache key `(smallerIndex << 32) + greaterIndex`. Since a shift by 32
      is a shift by 0, for any index below 2^31 the key is the plain sum. */
  function Key(p1: nat, p2: nat): (r: int)
    ensures (p1 < TwoTo31 || p2 < TwoTo31) ==> r == p1 + p2
  {
    var firstIsSmaller := p1 < p2;
    var smallerIndex := if firstIsSmaller then p1 else p2;
    var greaterIndex := if firstIsSmaller then p2 else p1;
    ShiftLeft(smallerIndex, 32) + greaterIndex
  }

  /** The key does not depend on the order of the two indices. */
  lemma KeyOrderIndependent(p1: nat, p2: nat)
    ensures Key(p1, p2) == Key(p2, p1)
  {
  }

  /** Distinct unordered pairs can share a key: {0, 3} and {1, 2} both give 3. */
  lemma KeysCollide()
    ensures Key(0, 3) == Key(1, 2) == 3
  {
  }

  // ---------------------------------------------------------------------------
  // The base icosahedron
  // ---------------------------------------------------------------------------

  /** The twelve base vertices, in insertion order. */
  function BaseVertices(): (vs: seq<Point>)
    ensures |vs| == 12
    ensures forall k :: 0 <= k < 12 ==> vs[k].Corner?
  {
    [ Corner(MinusOne, T, Zero), Corner(One, T, Zero),
      Corner(MinusOne, MinusT, Zero), Corner(One, MinusT, Zero),
      Corner(Zero, MinusOne, T), Corner(Zero, One, T),
      Corner(Zero, MinusOne, MinusT), Corner(Zero, One, MinusT),
      Corner(T, Zero, MinusOne), Corner(T, Zero, One),
      Corner(MinusT, Zero, MinusOne), Corner(MinusT, Zero, One) ]
  }

  /** An index of one of the twelve base vertices. */
  type BaseIndex = k: nat | k < 12

  /** The twenty base faces, flattened three indices per face, in insertion order. */
  function BaseFaces(): (fs: seq<BaseIndex>)
    ensures |fs| == 60
  {
    [0, 11, 5] + [0, 5, 1] + [0, 1, 7] + [0, 7, 10] + [0, 10, 11]
    + [1, 5, 9] + [5, 11, 4] + [11, 10, 2] + [10, 7, 6] + [7, 1, 8]
    + [3, 9, 4] + [3, 4, 2] + [3, 2, 6] + [3, 6, 8] + [3, 8, 9]
    + [4, 9, 5] + [2, 4, 11] + [6, 2, 10] + [8, 6, 7] + [9, 8, 1]
  }

  /** The state just before refinement. */
  function Seed(): (m: Mesh)
    ensures WellFormed(m)
    ensures |m.points| == 12 && |m.indices| == 60 && m.cache == map[]
  {
    Mesh(BaseVertices(), BaseFaces(), map[])
  }

  // ---------------------------------------------------------------------------
  // One midpoint request, one subdivided triangle, one pass
  // ---------------------------------------------------------------------------

  /** A midpoint request: whatever the cache holds, a new vertex is appended
      and the cache entry for the pair's key is overwritten with its index. */
  function MiddlePoint(m: Mesh, p1: nat, p2: nat): (r: Mesh)
    requires p1 < |m.points| && p2 < |m.points|
    ensures |r.points| == |m.points| + 1
    ensures forall k :: 0 <= k < |m.points| ==> r.points[k] == m.points[k]
    ensures r.points[|m.points|] == Midpoint(m.points[p1], m.points[p2])
    ensures r.indices == m.indices
    ensures Key(p1, p2) in r.cache && r.cache[Key(p1, p2)] == |m.points|
    ensures forall key :: key in m.cache && key != Key(p1, p2) ==> key in r.cache && r.cache[key] == m.cache[key]
    ensures r.cache.Keys == m.cache.Keys + {Key(p1, p2)}
    ensures WellFormed(m) ==> WellFormed(r)
  {
    var i := |m.points|;
    Mesh(m.points + [Midpoint(m.points[p1], m.points[p2])], m.indices, m.cache[Key(p1, p2) := i])
  }

  /** The four child triangles of parent (x1, y1, z1) whose edges x1y1, y1z1 and
      z1x1 have midpoints x2, y2 and z2: three corner triangles, each keeping
      its parent corner first, then the middle one. */
  function Children(x1: nat, y1: nat, z1: nat, x2: nat, y2: nat, z2: nat): (c: seq<nat>)
    ensures |c| == 12
  {
    [x1, x2, z2] + [y1, y2, x2] + [z1, z2, y2] + [x2, y2, z2]
  }

  /** The midpoints of the edges x1y1, y1z1 and z1x1 of triangle (x1, y1, z1), in that order. */
  function EdgeMidpoints(ps: seq<Point>, x1: nat, y1: nat, z1: nat): (r: seq<Point>)
    requires x1 < |ps| && y1 < |ps| && z1 < |ps|
    ensures |r| == 3
  {
    [Midpoint(ps[x1], ps[y1]), Midpoint(ps[y1], ps[z1]), Midpoint(ps[z1], ps[x1])]
  }

  /** The children only name their parent's corners and its edge midpoints. */
  lemma ChildrenBelow(x1: nat, y1: nat, z1: nat, x2: nat, y2: nat, z2: nat, bound: nat)
    requires x1 < bound && y1 < bound && z1 < bound && x2 < bound && y2 < bound && z2 < bound
    ensures IndicesBelow(Children(x1, y1, z1, x2, y2, z2), bound)
  {
  }

  /** Subdividing triangle (x1, y1, z1) of `m`, as the refinement loop does
      for one triangle: the midpoints of its edges x1y1, y1z1 and z1x1 are
      appended as x2, y2, z2, then its four children over them, and the cache
      entries of its three edges are overwritten with x2, y2, z2. */
  function SubdividedFace(m: Mesh, x1: nat, y1: nat, z1: nat): (r: Mesh)
    requires x1 < |m.points| && y1 < |m.points| && z1 < |m.points|
    ensures |r.points| == |m.points| + 3 && |r.indices| == |m.indices| + 12
  {
    var n := |m.points|;
    Mesh(m.points + EdgeMidpoints(m.points, x1, y1, z1),
         m.indices + Children(x1, y1, z1, n, n + 1, n + 2),
         m.cache[Key(x1, y1) := n][Key(y1, z1) := n + 1][Key(z1, x1) := n + 2])
  }

  /** Subdividing a triangle of a well-formed mesh keeps it well formed. */
  lemma SubdividedFaceWellFormed(m: Mesh, x1: nat, y1: nat, z1: nat)
    requires x1 < |m.points| && y1 < |m.points| && z1 < |m.points|
    ensures WellFormed(m) ==> WellFormed(SubdividedFace(m, x1, y1, z1))
  {
  }

  /** Subdividing a triangle keeps every earlier vertex and index entry,
      appends the midpoints of its edges x1y1, y1z1, z1x1 as vertices n,
      n + 1, n + 2, appends its children (x1,n,n+2), (y1,n+1,n), (z1,n+2,n+1),
      (n,n+1,n+2) in that order, and records n, n + 1, n + 2 under the keys
      of the three edges. */
  lemma SubdividedFaceLayout(m: Mesh, x1: nat, y1: nat, z1: nat)
    requires x1 < |m.points| && y1 < |m.points| && z1 < |m.points|
    ensures var r, n, L := SubdividedFace(m, x1, y1, z1), |m.points|, |m.indices|;
      && r.points[..n] == m.points
      && r.points[n] == Midpoint(m.points[x1], m.points[y1])
      && r.points[n + 1] == Midpoint(m.points[y1], m.points[z1])
      && r.points[n + 2] == Midpoint(m.points[z1], m.points[x1])
      && r.indices[..L] == m.indices
      && r.indices[L..] == [x1, n, n + 2, y1, n + 1, n, z1, n + 2, n + 1, n, n + 1, n + 2]
      && r.cache[Key(z1, x1)] == n + 2
      && (Key(y1, z1) != Key(z1, x1) ==> r.cache[Key(y1, z1)] == n + 1)
      && (Key(x1, y1) != Key(y1, z1) && Key(x1, y1) != Key(z1, x1) ==> r.cache[Key(x1, y1)] == n)
  {
  }

  /** The three midpoint requests for triangle (x1, y1, z1), in the order
      x1y1, y1z1, z1x1, append its edge midpoints and overwrite three cache
      entries with their indices. */
  lemma ThreeMidpoints(m: Mesh, x1: nat, y1: nat, z1: nat)
    requires x1 < |m.points| && y1 < |m.points| && z1 < |m.points|
    ensures var r := MiddlePoint(MiddlePoint(MiddlePoint(m, x1, y1), y1, z1), z1, x1);
      && r.points == m.points + EdgeMidpoints(m.points, x1, y1, z1)
      && r.indices == m.indices
      && r.cache == m.cache[Key(x1, y1) := |m.points|][Key(y1, z1) := |m.points| + 1][Key(z1, x1) := |m.points| + 2]
  {
  }

  /** Appending the four children one triangle at a time appends Children. */
  lemma FourFaces(s: seq<nat>, x1: nat, y1: nat, z1: nat, x2: nat, y2: nat, z2: nat)
    ensures s + [x1, x2, z2] + [y1, y2, x2] + [z1, z2, y2] + [x2, y2, z2] == s + Children(x1, y1, z1, x2, y2, z2)
  {
  }

  /** The state after the first `t` triangles of the snapshot `snap` have been
      subdivided, in order, starting from `m`: each triangle reads the vertex
      list as the earlier ones left it. */
  function PassPrefix(m: Mesh, snap: seq<nat>, t: nat): (r: Mesh)
    requires 3 * t <= |snap| && IndicesBelow(snap, |m.points|)
    ensures |r.points| == |m.points| + 3 * t
    ensures |r.indices| == |m.indices| + 12 * t
    ensures WellFormed(m) ==> WellFormed(r)
    decreases t, 0
  {
    if t == 0 then m else AfterFace(m, snap, t - 1)
  }

  /** The state right after triangle `j` of the snapshot (indices 3j, 3j + 1
      and 3j + 2) has been subdivided, against the state the earlier triangles
      left. */
  function AfterFace(m: Mesh, snap: seq<nat>, j: nat): (r: Mesh)
    requires 3 * j + 3 <= |snap| && IndicesBelow(snap, |m.points|)
    ensures |r.points| == |m.points| + 3 * j + 3
    ensures |r.indices| == |m.indices| + 12 * j + 12
    ensures WellFormed(m) ==> WellFormed(r)
    decreases j, 1
  {
    var p := PassPrefix(m, snap, j);
    SubdividedFaceWellFormed(p, snap[3 * j], snap[3 * j + 1], snap[3 * j + 2]);
    SubdividedFace(p, snap[3 * j], snap[3 * j + 1], snap[3 * j + 2])
  }

  /** The next triangle of the snapshot is subdivided against the state the
      earlier ones left. */
  lemma PassPrefixStep(m: Mesh, snap: seq<nat>, j: nat, f: nat)
    requires f == 3 * j && f + 3 <= |snap| && IndicesBelow(snap, |m.points|)
    ensures PassPrefix(m, snap, j + 1) == SubdividedFace(PassPrefix(m, snap, j), snap[f], snap[f + 1], snap[f + 2])
  {
  }

  /** The triangle a pass visits next: after j triangles, the one starting
      at index f = 3j still has its original corners, and subdividing it gives
      the state after j + 1 triangles. */
  lemma PassPrefixNext(m: Mesh, j: nat, f: nat)
    requires WellFormed(m) && f == 3 * j && f + 3 <= |m.indices|
    ensures var p := PassPrefix(m, m.indices, j);
      && p.indices[f] == m.indices[f] && p.indices[f + 1] == m.indices[f + 1] && p.indices[f + 2] == m.indices[f + 2]
      && PassPrefix(m, m.indices, j + 1) == SubdividedFace(p, m.indices[f], m.indices[f + 1], m.indices[f + 2])
  {
    IndexKept(m, m.indices, j, f);
    IndexKept(m, m.indices, j, f + 1);
    IndexKept(m, m.indices, j, f + 2);
    PassPrefixStep(m, m.indices, j, f);
  }

  /** Subdividing more triangles never changes an existing vertex. */
  lemma {:induction false} PointKept(m: Mesh, snap: seq<nat>, t: nat, k: nat)
    requires 3 * t <= |snap| && IndicesBelow(snap, |m.points|) && k < |m.points|
    ensures PassPrefix(m, snap, t).points[k] == m.points[k]
    decreases t
  {
    if t > 0 {
      PointKept(m, snap, t - 1, k);
    }
  }

  /** Subdividing more triangles never changes an existing index entry. */
  lemma {:induction false} IndexKept(m: Mesh, snap: seq<nat>, t: nat, k: nat)
    requires 3 * t <= |snap| && IndicesBelow(snap, |m.points|) && k < |m.indices|
    ensures PassPrefix(m, snap, t).indices[k] == m.indices[k]
    decreases t
  {
    if t > 0 {
      IndexKept(m, snap, t - 1, k);
    }
  }

  /** One refinement pass: only the triangles present at its start are
      visited; none is removed, and four children are appended per triangle. */
  function Pass(m: Mesh): (r: Mesh)
    requires WellFormed(m)
    ensures WellFormed(r)
    ensures |r.indices| == 5 * |m.indices|
    ensures |r.points| == |m.points| + |m.indices|
  {
    PassPrefix(m, m.indices, |m.indices| / 3)
  }

  /** A pass only appends: the vertex list and the index list it starts
      from are prefixes of the ones it leaves. */
  lemma PassKeepsPrefix(m: Mesh)
    requires WellFormed(m)
    ensures Pass(m).points[..|m.points|] == m.points
    ensures Pass(m).indices[..|m.indices|] == m.indices
  {
    var t := |m.indices| / 3;
    var r := Pass(m);
    forall k | 0 <= k < |m.points|
      ensures r.points[k] == m.points[k]
    {
      PointKept(m, m.indices, t, k);
    }
    forall k | 0 <= k < |m.indices|
      ensures r.indices[k] == m.indices[k]
    {
      IndexKept(m, m.indices, t, k);
    }
    assert r.points[..|m.points|] == m.points;
  }

  /** L multiplied by five, q times. */
  function Quintupled(L: nat, q: int): (r: nat)
    ensures r >= L
    decreases q
  {
    if q <= 0 then L else Quintupled(5 * L, q - 1)
  }

  lemma {:induction false} QuintupledIsPower(L: nat, q: nat)
    ensures Quintupled(L, q) == L * Pow(5, q)
    decreases q
  {
    if q > 0 {
      var p: nat := q - 1;
      QuintupledIsPower(5 * L, p);
      assert (5 * L) * Pow(5, p) == L * (5 * Pow(5, p));
    }
  }

  /** `q` passes, one after the other; a quality of zero or less does nothing.
      The index count is multiplied by five per pass, and every added index
      comes with a quarter of an added vertex (one vertex per snapshot index,
      four indices per snapshot index). */
  function Refined(m: Mesh, q: int): (r: Mesh)
    requires WellFormed(m)
    ensures WellFormed(r)
    ensures |r.indices| == Quintupled(|m.indices|, q)
    ensures 4 * (|r.points| - |m.points|) == |r.indices| - |m.indices|
    decreases q
  {
    if q <= 0 then m else Refined(Pass(m), q - 1)
  }

  /** The finished mesh for a given quality. */
  function Build(quality: int): (r: Mesh)
    ensures WellFormed(r)
    ensures |r.indices| >= 60 && |r.points| >= 12
  {
    Refined(Seed(), quality)
  }

  // ---------------------------------------------------------------------------
  // Properties of the construction
  // ---------------------------------------------------------------------------

  /** Before any refinement there are 12 vertices and 60 indices (20 faces). */
  lemma UnrefinedShape(quality: int)
    requires quality <= 0
    ensures Build(quality).points == BaseVertices()
    ensures Build(quality).indices == BaseFaces()
    ensures |Build(quality).points| == 12 && |Build(quality).indices| == 60
  {
  }

  /** After q passes there are 60 * 5^q indices and 12 + 15 * (5^q - 1) vertices. */
  lemma SizesAfter(q: nat)
    ensures |Build(q).indices| == 60 * Pow(5, q)
    ensures |Build(q).points| == 12 + 15 * (Pow(5, q) - 1)
  {
    QuintupledIsPower(60, q);
  }

  /** Quality 1 gives 72 vertices and 300 indices (100 triangles), not the
      42 vertices and 80 triangles of a deduplicated icosphere. */
  lemma QualityOne()
    ensures |Build(1).points| == 72 && |Build(1).indices| == 300
  {
    SizesAfter(1);
  }

  /** The cache is written but never consulted: requesting the same edge twice,
      in either order, creates two different vertices. */
  lemma RepeatedRequestAddsTwoVertices(m: Mesh, p1: nat, p2: nat)
    requires p1 < |m.points| && p2 < |m.points|
    ensures var once := MiddlePoint(m, p1, p2);
      var twice := MiddlePoint(once, p2, p1);
      && |twice.points| == |m.points| + 2
      && twice.cache[Key(p1, p2)] == |m.points| + 1
      && once.cache[Key(p1, p2)] != twice.cache[Key(p2, p1)]
  {
    KeyOrderIndependent(p1, p2);
  }
}
