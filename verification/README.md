# Icosahedron mesh builder and in-place rotations

This project models two pieces of a small WebGL demo. Both exist as
TypeScript source and as its compiled JavaScript twin.

- **`Icosahedron3D`** builds a sphere-like triangle mesh. It has a vertex
  list `Points`, a flat index list `TriangleIndices` (three entries per
  triangle), a vertex counter `_index` and a midpoint cache
  `_middlePointIndexCache`. It first adds the 12 vertices and 20 faces of
  an icosahedron. It then runs `quality` refinement passes. Each pass reads
  the number of indices once. For every triangle present at the start of
  the pass it requests the midpoints of the three edges and appends four
  child triangles.
- **`Matrix.RotateX/RotateY/RotateZ`** rotate a 4x4 matrix, stored as 16
  numbers in column-major order, in place. Entry k is row k mod 4 of
  column ⌊k/4⌋, and entries 12 to 15 are column 3, the translation. Each
  rotation mixes two rows of columns 0 to 2, pair by pair, with `cos` and
  `sin` of the angle, saving the three old entries it still needs. The
  translation column is never touched.

The model follows the code, which differs from an idealised icosphere in
three ways:

- **Parents are kept.** A pass appends four children per triangle and
  removes nothing. The index list therefore grows fivefold per pass:
  60·5^q indices after q passes, and 100 triangles for quality 1, not 80.
- **The cache is never consulted.** The lookup's result is discarded, so
  every midpoint request appends a fresh vertex. A pass adds one vertex
  per snapshot index: 72 vertices for quality 1, not 42.
- **The key ignores its shift.** In JavaScript, `x << 32` shifts by
  `32 & 31 = 0` after converting `x` to a signed 32-bit integer. The key
  `(smaller << 32) + greater` is therefore `ToInt32(smaller) + greater`,
  which is the plain sum for realistic indices. It is order-independent,
  but different pairs share keys: {0, 3} and {1, 2} both give 3.

A negative quality runs no pass; nothing rejects it.

Files:

- `geometry.dfy` (module `Geometry`) describes the builder's state as a
  value (`Mesh`). It defines what a midpoint request, a subdivided
  triangle, a pass (`Pass`), `q` passes (`Refined`) and the whole build
  (`Build`) produce, and proves the properties listed below.
- `icosahedron.dfy` (module `Icosahedron`) is the class `Icosahedron3D`,
  with the source's fields. Its methods update those fields step by step,
  with the source's loops, and each method is proved to produce the
  corresponding `Geometry` value.
- `matrix.dfy` (module `Matrix`) has the three in-place rotations on
  `array<real>` with `c` and `s` as parameters. They are proved against a
  value-level `Rotated`, which carries the algebraic properties.

Some functions are reference definitions: the contracts of other members
state their properties, so they have no row of their own in the table
below.

- `Geometry.Children` (typescript/index.ts:361-364) gives the child order
  (x1,x2,z2), (y1,y2,x2), (z1,z2,y2), (x2,y2,z2). `AddChildren`, `FourFaces`
  and `SubdividedFaceLayout` state it.
- `Geometry.EdgeMidpoints` (typescript/index.ts:357-359) gives the midpoint
  order x1y1, y1z1, z1x1. `RequestEdgeMidpoints`, `ThreeMidpoints` and
  `SubdividedFaceLayout` state it.
- `Matrix.Turn` (typescript/index.ts:222-228) gives the pair update
  (u, v) ↦ (u·c − v·s, v·c + u·s). `Rotated`, `TurnTwice` and
  `TurnScalesLength` state its properties.
- `Matrix.RotatedX`, `Matrix.RotatedY` and `Matrix.RotatedZ`
  (typescript/index.ts:216-258) instantiate `Rotated` with rows (1, 2),
  (2, 0) and (0, 1). The rows of `RotateX`, `RotateY` and `RotateZ` state
  what they promise.
- `Matrix.Times` is real multiplication. The rotation methods write the
  source's products with it.

Points are symbolic. A vertex records how it was made (`Corner(x, y, z)`
from the base coordinates 0, ±1, ±t, or `Midpoint(a, b)` of two stored
vertices) and stands for that value normalised onto the unit sphere.

The JavaScript twin has the same behaviour, line for line:

| TypeScript | JavaScript |
|---|---|
| constructor, typescript/index.ts:270-274 | js/index.js:152-155 |
| `_calculateGeometry`, typescript/index.ts:276-326 | js/index.js:156-195 |
| `_addVertex`, typescript/index.ts:328-337 | js/index.js:196-204 |
| `_addFace`, typescript/index.ts:339-344 | js/index.js:205-209 |
| `_refineVertices`, typescript/index.ts:346-367 | js/index.js:210-226 |
| `_getMiddlePoint`, typescript/index.ts:369-390 | js/index.js:227-245 |
| `RotateX/Y/Z`, typescript/index.ts:216-258 | js/index.js:116-148 |

## Model

| member | source | states |
|---|---|---|
| Geometry.ToInt32 | typescript/index.ts:374 | The 32-bit conversion the shift applies lands in the signed 32-bit range and agrees with its input modulo 2^32. |
| Geometry.ShiftLeft | typescript/index.ts:374 | A shift count that is a multiple of 32 leaves the converted value unchanged, so `<< 32` shifts nothing. |
| Geometry.Key | typescript/index.ts:371-374 | When either index is below 2^31, the key `(smaller << 32) + greater` is the plain sum p1 + p2. |
| Geometry.KeyOrderIndependent | typescript/index.ts:371-374 | The key of (p1, p2) equals the key of (p2, p1). |
| Geometry.KeysCollide | typescript/index.ts:374 | Distinct pairs share a key: {0, 3} and {1, 2} both map to 3. |
| Geometry.BaseVertices | typescript/index.ts:285-298 | Exactly twelve base vertices, all built from base coordinates, in insertion order. |
| Geometry.BaseFaces | typescript/index.ts:301-323 | Exactly 60 index entries (20 faces) in insertion order; the subset type holds every entry below 12. |
| Geometry.Seed | typescript/index.ts:278-323 | Before refinement: 12 vertices, 60 indices, an empty cache, and the mesh is well formed. |
| Geometry.MiddlePoint | typescript/index.ts:369-390 | A midpoint request always appends one vertex, the midpoint of p1 and p2. Earlier vertices and the index list are unchanged. The cache maps the pair's key to the new index, and every other key keeps its entry. Well-formedness is preserved. (Also js/index.js:227-245.) |
| Geometry.ChildrenBelow | typescript/index.ts:361-364 | The four children name only the parent's corners and its three midpoints, so all their indices stay below any bound those six are below. |
| Geometry.SubdividedFace | typescript/index.ts:353-364 | Subdividing one triangle adds exactly three vertices and twelve indices. |
| Geometry.SubdividedFaceWellFormed | typescript/index.ts:353-364 | Subdividing a triangle of a well-formed mesh leaves every index and cached index below the vertex count, and the index count a multiple of three. |
| Geometry.SubdividedFaceLayout | typescript/index.ts:357-364 | Earlier vertices and indices are kept. The new vertices n, n+1, n+2 are the midpoints of edges x1y1, y1z1, z1x1. The appended children are exactly (x1,n,n+2), (y1,n+1,n), (z1,n+2,n+1), (n,n+1,n+2), in that order. The last-written edge key maps to n+2. Earlier edge keys map to their own midpoints unless a later key collides with them. |
| Geometry.ThreeMidpoints | typescript/index.ts:357-359 | The three requests in order x1y1, y1z1, z1x1 append the three edge midpoints, leave the indices alone, and write the three keys in that order. |
| Geometry.FourFaces | typescript/index.ts:361-364 | The four face insertions, one after the other, append exactly the children sequence. |
| Geometry.PassPrefix | typescript/index.ts:351-365 | After the first t snapshot triangles, 3t vertices and 12t indices have been added, and well-formedness is kept. |
| Geometry.AfterFace | typescript/index.ts:351-365 | After snapshot triangle j, 3j+3 vertices and 12j+12 indices have been added, and well-formedness is kept. |
| Geometry.PassPrefixStep | typescript/index.ts:351-365 | The state after t+1 snapshot triangles is the state after t, with triangle t of the snapshot subdivided. |
| Geometry.PassPrefixNext | typescript/index.ts:350-355 | Partway through a pass, the triangle at index 3t still holds its pre-pass corners, because only appends happened. Subdividing it gives the state after t+1 triangles. |
| Geometry.PointKept | typescript/index.ts:351-365 | Subdividing snapshot triangles never changes an existing vertex. |
| Geometry.IndexKept | typescript/index.ts:351-365 | Subdividing snapshot triangles never changes an existing index entry. |
| Geometry.Pass | typescript/index.ts:350-365 | A pass keeps the mesh well formed, multiplies the index count by five, and adds one vertex per pre-pass index. |
| Geometry.PassKeepsPrefix | typescript/index.ts:350-365 | A pass only appends: the old vertex list and the old index list are prefixes of the new ones. |
| Geometry.QuintupledIsPower | typescript/index.ts:348 | Multiplying by five q times is multiplying by 5^q. |
| Geometry.Refined | typescript/index.ts:346-367 | q passes keep the mesh well formed. The index count is multiplied by five per pass, and four indices are added per added vertex. A quality of zero or less leaves the mesh unchanged. |
| Geometry.Build | typescript/index.ts:276-326 | The finished mesh is well formed, with at least 60 indices and 12 vertices. |
| Geometry.UnrefinedShape | typescript/index.ts:285-325 | With no refinement, the mesh is exactly the twelve base vertices and the twenty base faces. |
| Geometry.SizesAfter | typescript/index.ts:346-367 | After q passes there are 60·5^q indices and 12 + 15·(5^q − 1) vertices. |
| Geometry.QualityOne | typescript/index.ts:346-367 | Quality 1 gives 72 vertices and 300 indices. |
| Geometry.RepeatedRequestAddsTwoVertices | typescript/index.ts:376-389 | Requesting the same edge twice, in either order, adds two distinct vertices. The cache ends up holding the second one. |
| Icosahedron.Icosahedron3D.constructor | typescript/index.ts:270-274 | The new object stores the quality and holds `Build(quality)`. The counter equals the vertex count. |
| Icosahedron.Icosahedron3D.CalculateGeometry | typescript/index.ts:276-326 | After resetting the state, adding the base shape and refining, the object holds `Build(quality)`. |
| Icosahedron.Icosahedron3D.AddBaseVertices | typescript/index.ts:285-298 | The twelve insertions leave exactly the base vertices and a counter of 12; nothing else changes. |
| Icosahedron.Icosahedron3D.AddBaseFaces | typescript/index.ts:301-323 | The twenty insertions leave exactly the base face list; nothing else changes. |
| Icosahedron.Icosahedron3D.AddVertex | typescript/index.ts:328-337 | Appends one point, returns the old counter and increments it; nothing else changes. (Also js/index.js:196-204.) |
| Icosahedron.Icosahedron3D.AddFace | typescript/index.ts:339-344 | Appends x, y, z at the end of the index list; earlier entries and everything else are unchanged. (Also js/index.js:205-209.) |
| Icosahedron.Icosahedron3D.GetMiddlePoint | typescript/index.ts:369-390 | Returns the old vertex count and leaves the state `MiddlePoint` describes, whatever the cache held. The counter stays equal to the vertex count. |
| Icosahedron.Icosahedron3D.RefineVertices | typescript/index.ts:346-367 | The outer loop leaves `Refined(old state, quality)` and keeps the object valid. (Also js/index.js:210-226.) |
| Icosahedron.Icosahedron3D.RefinePass | typescript/index.ts:350-365 | One outer iteration, over the face count read once at its start, leaves `Pass(old state)`. |
| Icosahedron.Icosahedron3D.RefineNextFace | typescript/index.ts:351-365 | After the first t snapshot triangles, one inner iteration gives the state after t+1. |
| Icosahedron.Icosahedron3D.RefineFace | typescript/index.ts:353-364 | One inner iteration reads the triangle at `face` and leaves `SubdividedFace` of the old state for those corners. |
| Icosahedron.Icosahedron3D.RequestEdgeMidpoints | typescript/index.ts:357-359 | The three requests return old vertex count + 0, 1, 2. They append the three edge midpoints and write the three edge keys in order. The index list is unchanged. |
| Icosahedron.Icosahedron3D.AddChildren | typescript/index.ts:361-364 | The four insertions append exactly (x1,x2,z2), (y1,y2,x2), (z1,z2,y2), (x2,y2,z2); vertices, counter and cache are unchanged. |
| Matrix.TurnTwice | typescript/index.ts:222-228 | Turning a pair by (c1, s1) and then by (c2, s2) equals one turn by their complex product (the angles add). |
| Matrix.TurnScalesLength | typescript/index.ts:222-228 | A turn multiplies the squared length of the pair by c² + s². |
| Matrix.Rotated | typescript/index.ts:216-258 | Rotating rows i and j (of columns 0 to 2) leaves the ten other entries unchanged, the translation column among them. The three pairs (i, j), (i+4, j+4), (i+8, j+8) become their turns, computed from the old values of both entries. |
| Matrix.RotatedTwice | typescript/index.ts:216-258 | Two rotations of the same rows are one rotation by the product of their (c, s) pairs. |
| Matrix.RotatedByZero | typescript/index.ts:216-258 | With c = 1 and s = 0 the matrix is unchanged. |
| Matrix.RotatedBack | typescript/index.ts:216-258 | When c² + s² = 1, rotating by (c, −s) undoes rotating by (c, s). |
| Matrix.RotatedKeepsLengths | typescript/index.ts:216-258 | When c² + s² = 1, each of the three turned entry pairs keeps its squared length. |
| Matrix.RotateX | typescript/index.ts:216-229 | In place, with m[1], m[5], m[9] saved first, the array ends as the rotation of rows 1 and 2 of the old array. Only entries 1, 2, 5, 6, 9, 10 change. (Also js/index.js:116-126.) |
| Matrix.RotateY | typescript/index.ts:231-244 | In place, with m[0], m[4], m[8] saved first, the array ends as the rotation of rows 2 and 0 of the old array. Only entries 0, 2, 4, 6, 8, 10 change. (Also js/index.js:127-137.) |
| Matrix.RotateZ | typescript/index.ts:246-258 | In place, with m[0], m[4], m[8] saved first, the array ends as the rotation of rows 0 and 1 of the old array. Only entries 0, 1, 4, 5, 8, 9 change. (Also js/index.js:138-148.) |

## Left out

- The `App` class (WebGL context, buffers, shaders, `drawElements`, the animation loop) is rendering plumbing. So are the colour generation and the flattening of points in `draw`.
- `Matrix.GetProjection` is left out. It uses `tan`, π and floating-point division.
- Coordinate arithmetic is left out: the square root and divisions that normalise a vertex, the averaging of two points, and the golden-ratio constant. Points are symbolic, so unit length is not a property of the model.
- The `Uint16Array` conversion of the index list at the GPU boundary is left out. Indices are unbounded naturals here.
- JavaScript numbers are doubles. The model treats indices and the counter as exact integers, which they are below 2^53. Object keys are strings in JavaScript; the model keys the cache by the integer key, which names the same entry.
- `quality` is an integer. A fractional quality, for which the loop would run ⌈quality⌉ passes, is not modelled.
- RotateX/RotateY/RotateZ take `c` and `s` instead of computing `cos` and `sin` of an angle. Arithmetic is exact on reals, so the rounding of double arithmetic and of `Float32Array` stores is not modelled.
- Geometry.Pass: the position of each triangle's children within the pass is stated triangle by triangle (`SubdividedFaceLayout` with `PassPrefixStep`), not as one closed formula over the whole pass.
- The build tooling (`gulpfile.js`) is not part of this model.
