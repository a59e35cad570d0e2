/**
 The mesh builder itself: an object whose vertex list, index list, midpoint
 cache and vertex counter are updated in place, step by step, and whose
 methods are proved against the value-level description in Geometry.
 */
module Icosahedron {
  import opened Geometry

  class Icosahedron3D {
    /** The vertex list. */
    var points: seq<Point>
    /** The flat triangle index list, three entries per triangle. */
    var triangleIndices: seq<nat>
    /** Midpoint cache from edge key to vertex index; written, never consulted. */
    var middlePointIndexCache: map<int, nat>
    /** Number of refinement passes. */
    var quality: int
    /** The index the next added vertex receives. */
    var index: int

    /** The mesh part of the object, as a value. */
    function State(): Mesh
      reads this
    {
      Mesh(points, triangleIndices, middlePointIndexCache)
    }

    /** The counter is the number of vertices, and the mesh is well formed. */
    ghost predicate Valid()
      reads this
    {
      index == |points| && WellFormed(State())
    }

    /** Builds the whole mesh for the given quality. */
    constructor(quality: int)
      ensures Valid()
      ensures this.quality == quality
      ensures State() == Build(quality)
    {
      this.quality := quality;
      new;
      CalculateGeometry();
    }

    /** Resets the state, adds the twelve base vertices and twenty base faces,
        then refines `quality` times. */
    method CalculateGeometry()
      modifies this
      ensures Valid()
      ensures quality == old(quality)
      ensures State() == Build(quality)
    {
      points := [];
      triangleIndices := [];
      middlePointIndexCache := map[];
      index := 0;
      AddBaseVertices();
      AddBaseFaces();
      RefineVertices();
    }

    /** The twelve vertex insertions of CalculateGeometry, in order. */
    method AddBaseVertices()
      requires points == [] && index == 0
      modifies this
      ensures points == BaseVertices() && index == 12
      ensures triangleIndices == old(triangleIndices)
      ensures middlePointIndexCache == old(middlePointIndexCache)
      ensures quality == old(quality)
    {
      var v := AddVertex(Corner(MinusOne, T, Zero));
      v := AddVertex(Corner(One, T, Zero));
      v := AddVertex(Corner(MinusOne, MinusT, Zero));
      v := AddVertex(Corner(One, MinusT, Zero));

      v := AddVertex(Corner(Zero, MinusOne, T));
      v := AddVertex(Corner(Zero, One, T));
      v := AddVertex(Corner(Zero, MinusOne, MinusT));
      v := AddVertex(Corner(Zero, One, MinusT));

      v := AddVertex(Corner(T, Zero, MinusOne));
      v := AddVertex(Corner(T, Zero, One));
      v := AddVertex(Corner(MinusT, Zero, MinusOne));
      v := AddVertex(Corner(MinusT, Zero, One));
    }

    /** The twenty face insertions of CalculateGeometry, in order. */
    method AddBaseFaces()
      requires triangleIndices == []
      modifies this
      ensures triangleIndices == BaseFaces()
      ensures points == old(points) && index == old(index)
      ensures middlePointIndexCache == old(middlePointIndexCache)
      ensures quality == old(quality)
    {
      AddFace(0, 11, 5);
      assert triangleIndices == [0, 11, 5];
      AddFace(0, 5, 1);
      AddFace(0, 1, 7);
      AddFace(0, 7, 10);
      AddFace(0, 10, 11);

      AddFace(1, 5, 9);
      AddFace(5, 11, 4);
      AddFace(11, 10, 2);
      AddFace(10, 7, 6);
      AddFace(7, 1, 8);

      AddFace(3, 9, 4);
      AddFace(3, 4, 2);
      AddFace(3, 2, 6);
      AddFace(3, 6, 8);
      AddFace(3, 8, 9);

      AddFace(4, 9, 5);
      AddFace(2, 4, 11);
      AddFace(6, 2, 10);
      AddFace(8, 6, 7);
      AddFace(9, 8, 1);
    }

    /** Appends a vertex (normalised, as every Point is) and returns the
        index it receives, which is the old counter. */
    method AddVertex(p: Point) returns (i: int)
      modifies this
      ensures i == old(index) && index == old(index) + 1
      ensures points == old(points) + [p]
      ensures triangleIndices == old(triangleIndices)
      ensures middlePointIndexCache == old(middlePointIndexCache)
      ensures quality == old(quality)
    {
      points := points + [p];
      i := index;
      index := index + 1;
    }

    /** Appends one triangle to the index list; nothing else changes. */
    method AddFace(x: nat, y: nat, z: nat)
      modifies this
      ensures triangleIndices == old(triangleIndices) + [x, y, z]
      ensures points == old(points) && index == old(index)
      ensures middlePointIndexCache == old(middlePointIndexCache)
      ensures quality == old(quality)
    {
      triangleIndices := triangleIndices + [x];
      triangleIndices := triangleIndices + [y];
      triangleIndices := triangleIndices + [z];
      assert triangleIndices == old(triangleIndices) + [x, y, z];
    }

    /** Computes the edge key, looks it up and ignores what it finds, then
        always appends the midpoint of the two vertices and records it in the
        cache under the key. */
    method GetMiddlePoint(p1: nat, p2: nat) returns (i: nat)
      requires Valid()
      requires p1 < |points| && p2 < |points|
      modifies this
      ensures Valid()
      ensures i == old(|points|)
      ensures State() == MiddlePoint(old(State()), p1, p2)
      ensures quality == old(quality)
    {
      var key := Key(p1, p2);
      var cached := key in middlePointIndexCache;

      var point1 := points[p1];
      var point2 := points[p2];
      var v := AddVertex(Midpoint(point1, point2));
      i := v;
      middlePointIndexCache := middlePointIndexCache[key := i];
    }

    /** Runs `quality` passes; each visits the triangles present when it
        starts and appends, per triangle, three midpoints and four children. */
    method RefineVertices()
      requires Valid()
      modifies this
      ensures Valid()
      ensures quality == old(quality)
      ensures State() == Refined(old(State()), quality)
    {
      ghost var goal := Refined(State(), quality);
      ghost var left := quality;
      var i := 0;
      while i < quality
        invariant quality == old(quality) && left == quality - i
        invariant Valid()
        invariant Refined(State(), left) == goal
      {
        ghost var before := State();
        RefinePass();
        assert Refined(State(), left - 1) == Refined(before, left);
        i := i + 1;
        left := left - 1;
      }
    }

    /** One iteration of the outer loop of RefineVertices: the face count is
        read once, so only the triangles present before the pass are visited,
        and each is subdivided in order. */
    method RefinePass()
      requires Valid()
      modifies this
      ensures Valid() && quality == old(quality)
      ensures State() == Pass(old(State()))
    {
      ghost var s := State();
      var faceCount := |triangleIndices|;
      ghost var count := faceCount / 3;
      assert faceCount == 3 * count;
      var face := 0;
      ghost var t := 0;
      while face < faceCount
        invariant face == 3 * t && t <= count
        invariant quality == old(quality)
        invariant Valid()
        invariant State() == PassPrefix(s, s.indices, t)
      {
        assert t < count;
        RefineNextFace(face, s, t);
        face := face + 3;
        t := t + 1;
      }
      // Both steps follow from the loop exit; stating them keeps the proof small.
      assert t == count;
      assert State() == PassPrefix(s, s.indices, count);
    }

    /** One iteration of the inner loop of RefineVertices, stated against the
        pass it belongs to: when the first t triangles of the snapshot s have
        been subdivided, subdividing the one at `face` = 3t gives the state
        after t + 1 triangles. */
    method RefineNextFace(face: nat, ghost s: Mesh, ghost t: nat)
      requires WellFormed(s) && face == 3 * t && face + 3 <= |s.indices|
      requires Valid() && State() == PassPrefix(s, s.indices, t)
      modifies this
      ensures Valid() && quality == old(quality)
      ensures State() == PassPrefix(s, s.indices, t + 1)
    {
      PassPrefixNext(s, t, face);
      RefineFace(face);
    }

    /** The body of the inner loop of RefineVertices: reads the triangle
        starting at `face`, requests the midpoints of its three edges and
        appends its four children. */
    method RefineFace(face: nat)
      requires Valid() && face + 3 <= |triangleIndices|
      modifies this
      ensures Valid() && quality == old(quality)
      ensures State() == SubdividedFace(old(State()), old(triangleIndices[face]), old(triangleIndices[face + 1]), old(triangleIndices[face + 2]))
    {
      ghost var m := State();
      var x1 := triangleIndices[face];
      var y1 := triangleIndices[face + 1];
      var z1 := triangleIndices[face + 2];
      var x2, y2, z2 := RequestEdgeMidpoints(x1, y1, z1);
      AddChildren(x1, y1, z1, x2, y2, z2);
      SubdividedFaceWellFormed(m, x1, y1, z1);
    }

    /** The three midpoint requests of one triangle, for edges x1y1, y1z1 and
        z1x1 in that order: three fresh vertices, three cache entries. */
    method RequestEdgeMidpoints(x1: nat, y1: nat, z1: nat) returns (x2: nat, y2: nat, z2: nat)
      requires Valid() && x1 < |points| && y1 < |points| && z1 < |points|
      modifies this
      ensures Valid() && quality == old(quality)
      ensures x2 == old(|points|) && y2 == x2 + 1 && z2 == x2 + 2
      ensures points == old(points) + EdgeMidpoints(old(points), x1, y1, z1)
      ensures triangleIndices == old(triangleIndices)
      ensures middlePointIndexCache == old(middlePointIndexCache)[Key(x1, y1) := x2][Key(y1, z1) := y2][Key(z1, x1) := z2]
    {
      ghost var m := State();
      x2 := GetMiddlePoint(x1, y1);
      y2 := GetMiddlePoint(y1, z1);
      z2 := GetMiddlePoint(z1, x1);
      ThreeMidpoints(m, x1, y1, z1);
    }

    /** The four addFace calls of one triangle: three corner triangles, then
        the centre one. */
    method AddChildren(x1: nat, y1: nat, z1: nat, x2: nat, y2: nat, z2: nat)
      modifies this
      ensures triangleIndices == old(triangleIndices) + Children(x1, y1, z1, x2, y2, z2)
      ensures points == old(points) && index == old(index)
      ensures middlePointIndexCache == old(middlePointIndexCache)
      ensures quality == old(quality)
    {
      AddFace(x1, x2, z2);
      AddFace(y1, y2, x2);
      AddFace(z1, z2, y2);
      AddFace(x2, y2, z2);
      FourFaces(old(triangleIndices), x1, y1, z1, x2, y2, z2);
    }
  }
}
