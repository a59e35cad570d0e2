/**
 The three in-place rotations of a 4x4 matrix stored as 16 numbers in
 column-major order (entry k is row k % 4 of column k / 4, and entries 12 to
 15 are column 3, the translation). Each one mixes two rows of columns 0 to 2,
 entry pair by entry pair, with the cosine `c` and the sine `s` of the angle; the caller supplies `c` and `s` instead of
 the angle. A pair (u, v) becomes (u * c - v * s, v * c + u * s): the complex
 number u + iv multiplied by c + is.
 */
module Matrix {

  /** The product of two entries. The rotations are written with it, so that
      the reasoning about which entry receives which value stays linear; the
      lemmas that need the algebra of products see its body. */
  function Times(a: real, b: real): real
  {
    a * b
  }

  /** The complex product (u + iv)(c + is), as the pair it leaves in place. */
  function Turn(u: real, v: real, c: real, s: real): (real, real)
  {
    (Times(u, c) - Times(v, s), Times(v, c) + Times(u, s))
  }

  /** The same pair with the factors written the other way round, as the y
      and z rotations write them. */
  lemma TurnFactorsSwapped(u: real, v: real, c: real, s: real)
    ensures Turn(u, v, c, s) == (Times(c, u) - Times(s, v), Times(c, v) + Times(s, u))
  {
  }

  /** Products distribute over sums and differences, on either side. */
  lemma TimesDistributes(x: real, y: real, z: real)
    ensures Times(x + y, z) == Times(x, z) + Times(y, z)
    ensures Times(x - y, z) == Times(x, z) - Times(y, z)
    ensures Times(z, x + y) == Times(z, x) + Times(z, y)
    ensures Times(z, x - y) == Times(z, x) - Times(z, y)
  {
  }

  /** Products associate. */
  lemma TimesAssociates(x: real, y: real, z: real)
    ensures Times(Times(x, y), z) == Times(x, Times(y, z))
  {
  }

  /** The complex product of two (c, s) pairs. */
  function Compose(c1: real, s1: real, c2: real, s2: real): (real, real)
  {
    (Times(c1, c2) - Times(s1, s2), Times(s1, c2) + Times(c1, s2))
  }

  /** Turning by (c1, s1) and then by (c2, s2) is turning once by their
      complex product: the angles add. */
  lemma TurnTwice(u: real, v: real, c1: real, s1: real, c2: real, s2: real)
    ensures var once, both := Turn(u, v, c1, s1), Compose(c1, s1, c2, s2);
      Turn(once.0, once.1, c2, s2) == Turn(u, v, both.0, both.1)
  {
    var once, both := Turn(u, v, c1, s1), Compose(c1, s1, c2, s2);
    TimesDistributes(Times(u, c1), Times(v, s1), c2);
    TimesDistributes(Times(v, c1), Times(u, s1), s2);
    TimesDistributes(Times(v, c1), Times(u, s1), c2);
    TimesDistributes(Times(u, c1), Times(v, s1), s2);
    TimesDistributes(Times(c1, c2), Times(s1, s2), u);
    TimesDistributes(Times(s1, c2), Times(c1, s2), v);
    TimesDistributes(Times(c1, c2), Times(s1, s2), v);
    TimesDistributes(Times(s1, c2), Times(c1, s2), u);
    TimesAssociates(u, c1, c2);
    TimesAssociates(u, s1, s2);
    TimesAssociates(u, s1, c2);
    TimesAssociates(u, c1, s2);
    TimesAssociates(v, c1, c2);
    TimesAssociates(v, s1, s2);
    TimesAssociates(v, s1, c2);
    TimesAssociates(v, c1, s2);
  }

  /** The squared length of a pair of entries. */
  function Norm(u: real, v: real): real
  {
    u * u + v * v
  }

  /** The squared length of the pair is multiplied by c^2 + s^2, so a true
      rotation (c^2 + s^2 == 1) keeps it. */
  lemma TurnScalesLength(u: real, v: real, c: real, s: real)
    ensures var t := Turn(u, v, c, s);
      Norm(t.0, t.1) == (c * c + s * s) * Norm(u, v)
  {
  }

  /** Rows i and j of columns 0 to 2, whose entries sit at i, i + 4, i + 8
      and j, j + 4, j + 8 (column 3, the translation, at i + 12 and j + 12,
      is left alone). */
  predicate Rows(i: nat, j: nat)
  {
    i < 4 && j < 4 && i != j
  }

  /** Whether entry k is one of the six that rotating rows i and j writes. */
  predicate Written(k: int, i: nat, j: nat)
  {
    k == i || k == i + 4 || k == i + 8 || k == j || k == j + 4 || k == j + 8
  }

  /** The matrix after turning the pairs (m[i], m[j]), (m[i + 4], m[j + 4])
      and (m[i + 8], m[j + 8]), every new value computed from the old matrix;
      the other ten entries are left as they were. */
  function Rotated(m: seq<real>, i: nat, j: nat, c: real, s: real): (r: seq<real>)
    requires |m| == 16 && Rows(i, j)
    ensures |r| == 16
    ensures forall k :: 0 <= k < 16 && !Written(k, i, j) ==> r[k] == m[k]
    ensures (r[i], r[j]) == Turn(m[i], m[j], c, s)
    ensures (r[i + 4], r[j + 4]) == Turn(m[i + 4], m[j + 4], c, s)
    ensures (r[i + 8], r[j + 8]) == Turn(m[i + 8], m[j + 8], c, s)
  {
    var t0 := Turn(m[i], m[j], c, s);
    var t1 := Turn(m[i + 4], m[j + 4], c, s);
    var t2 := Turn(m[i + 8], m[j + 8], c, s);
    m[i := t0.0][i + 4 := t1.0][i + 8 := t2.0][j := t0.1][j + 4 := t1.1][j + 8 := t2.1]
  }

  /** Two rotations of the same rows are one rotation by the product of
      their (c, s) pairs. */
  lemma RotatedTwice(m: seq<real>, i: nat, j: nat, c1: real, s1: real, c2: real, s2: real)
    requires |m| == 16 && Rows(i, j)
    ensures var both := Compose(c1, s1, c2, s2);
      Rotated(Rotated(m, i, j, c1, s1), i, j, c2, s2) == Rotated(m, i, j, both.0, both.1)
  {
    var both := Compose(c1, s1, c2, s2);
    var once := Rotated(m, i, j, c1, s1);
    var twice := Rotated(once, i, j, c2, s2);
    var direct := Rotated(m, i, j, both.0, both.1);
    TurnTwice(m[i], m[j], c1, s1, c2, s2);
    TurnTwice(m[i + 4], m[j + 4], c1, s1, c2, s2);
    TurnTwice(m[i + 8], m[j + 8], c1, s1, c2, s2);
    forall k | 0 <= k < 16
      ensures twice[k] == direct[k]
    {
      if !Written(k, i, j) {
        assert twice[k] == once[k] == m[k];
      }
    }
  }

  /** With c = 1 and s = 0 (angle zero) nothing changes. */
  lemma RotatedByZero(m: seq<real>, i: nat, j: nat)
    requires |m| == 16 && Rows(i, j)
    ensures Rotated(m, i, j, 1.0, 0.0) == m
  {
  }

  /** A true rotation is undone by the rotation with the opposite sine. */
  lemma RotatedBack(m: seq<real>, i: nat, j: nat, c: real, s: real)
    requires |m| == 16 && Rows(i, j)
    requires c * c + s * s == 1.0
    ensures Rotated(Rotated(m, i, j, c, s), i, j, c, -s) == m
  {
    RotatedTwice(m, i, j, c, s, c, -s);
    assert Compose(c, s, c, -s) == (1.0, 0.0);
    RotatedByZero(m, i, j);
  }

  /** A true rotation keeps the length of each of the three turned pairs. */
  lemma RotatedKeepsLengths(m: seq<real>, i: nat, j: nat, c: real, s: real)
    requires |m| == 16 && Rows(i, j)
    requires c * c + s * s == 1.0
    ensures var r := Rotated(m, i, j, c, s);
      && Norm(r[i], r[j]) == Norm(m[i], m[j])
      && Norm(r[i + 4], r[j + 4]) == Norm(m[i + 4], m[j + 4])
      && Norm(r[i + 8], r[j + 8]) == Norm(m[i + 8], m[j + 8])
  {
    TurnScalesLength(m[i], m[j], c, s);
    TurnScalesLength(m[i + 4], m[j + 4], c, s);
    TurnScalesLength(m[i + 8], m[j + 8], c, s);
  }

  /** The rotation about the x axis: pairs (m[1], m[2]), (m[5], m[6]) and
      (m[9], m[10]). */
  function RotatedX(m: seq<real>, c: real, s: real): (r: seq<real>)
    requires |m| == 16
    ensures |r| == 16
  {
    Rotated(m, 1, 2, c, s)
  }

  /** The rotation about the y axis: pairs (m[2], m[0]), (m[6], m[4]) and
      (m[10], m[8]). */
  function RotatedY(m: seq<real>, c: real, s: real): (r: seq<real>)
    requires |m| == 16
    ensures |r| == 16
  {
    Rotated(m, 2, 0, c, s)
  }

  /** The rotation about the z axis: pairs (m[0], m[1]), (m[4], m[5]) and
      (m[8], m[9]). */
  function RotatedZ(m: seq<real>, c: real, s: real): (r: seq<real>)
    requires |m| == 16
    ensures |r| == 16
  {
    Rotated(m, 0, 1, c, s)
  }

  /** Rotates about the x axis in place. m[1], m[5] and m[9] are saved first,
      because m[2], m[6] and m[10] are computed from their old values after
      they have been overwritten. */
  method RotateX(m: array<real>, c: real, s: real)
    requires m.Length == 16
    modifies m
    ensures m[..] == RotatedX(old(m[..]), c, s)
  {
    ghost var goal := RotatedX(m[..], c, s);
    var mv1, mv5, mv9 := m[1], m[5], m[9];

    m[1] := Times(m[1], c) - Times(m[2], s);
    m[5] := Times(m[5], c) - Times(m[6], s);
    m[9] := Times(m[9], c) - Times(m[10], s);

    m[2] := Times(m[2], c) + Times(mv1, s);
    m[6] := Times(m[6], c) + Times(mv5, s);
    m[10] := Times(m[10], c) + Times(mv9, s);
    assert forall k | 0 <= k < 16 :: m[k] == goal[k];
  }

  /** Rotates about the y axis in place, saving m[0], m[4] and m[8]. */
  method RotateY(m: array<real>, c: real, s: real)
    requires m.Length == 16
    modifies m
    ensures m[..] == RotatedY(old(m[..]), c, s)
  {
    ghost var goal := RotatedY(m[..], c, s);
    TurnFactorsSwapped(m[2], m[0], c, s);
    TurnFactorsSwapped(m[6], m[4], c, s);
    TurnFactorsSwapped(m[10], m[8], c, s);
    var mv0, mv4, mv8 := m[0], m[4], m[8];

    m[0] := Times(c, m[0]) + Times(s, m[2]);
    m[4] := Times(c, m[4]) + Times(s, m[6]);
    m[8] := Times(c, m[8]) + Times(s, m[10]);

    m[2] := Times(c, m[2]) - Times(s, mv0);
    m[6] := Times(c, m[6]) - Times(s, mv4);
    m[10] := Times(c, m[10]) - Times(s, mv8);
    assert forall k | 0 <= k < 16 :: m[k] == goal[k];
  }

  /** Rotates about the z axis in place, saving m[0], m[4] and m[8]. */
  method RotateZ(m: array<real>, c: real, s: real)
    requires m.Length == 16
    modifies m
    ensures m[..] == RotatedZ(old(m[..]), c, s)
  {
    ghost var goal := RotatedZ(m[..], c, s);
    TurnFactorsSwapped(m[0], m[1], c, s);
    TurnFactorsSwapped(m[4], m[5], c, s);
    TurnFactorsSwapped(m[8], m[9], c, s);
    var mv0, mv4, mv8 := m[0], m[4], m[8];

    m[0] := Times(c, m[0]) - Times(s, m[1]);
    m[4] := Times(c, m[4]) - Times(s, m[5]);
    m[8] := Times(c, m[8]) - Times(s, m[9]);
    m[1] := Times(c, m[1]) + Times(s, mv0);
    m[5] := Times(c, m[5]) + Times(s, mv4);
    m[9] := Times(c, m[9]) + Times(s, mv8);
    assert forall k | 0 <= k < 16 :: m[k] == goal[k];
  }
}
