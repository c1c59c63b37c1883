/** Homogeneous 4x4 transforms, their rotation and translation views, and the
    algebra of composing them. */
module HomeMatrices {

  /** One row of a 4x4 matrix; `c0` .. `c3` are its columns. */
  datatype Row4 = Row4(c0: real, c1: real, c2: real, c3: real)

  /** A 4x4 matrix, row by row. */
  datatype Mat4 = Mat4(r0: Row4, r1: Row4, r2: Row4, r3: Row4)

  datatype Vec3 = Vec3(x: real, y: real, z: real)

  /** A 3x3 matrix, row by row. */
  datatype Mat3 = Mat3(r0: Vec3, r1: Vec3, r2: Vec3)

  const AffineRow := Row4(0.0, 0.0, 0.0, 1.0)

  /** A homogeneous transform: its bottom row is [0, 0, 0, 1]. */
  predicate IsHomogeneous(m: Mat4)
  {
    m.r3 == AffineRow
  }

  function Identity4(): (m: Mat4)
    ensures IsHomogeneous(m)
  {
    Mat4(Row4(1.0, 0.0, 0.0, 0.0), Row4(0.0, 1.0, 0.0, 0.0), Row4(0.0, 0.0, 1.0, 0.0), AffineRow)
  }

  /** A row times a matrix. */
  function RowTimes(r: Row4, b: Mat4): Row4
  {
    Row4(r.c0 * b.r0.c0 + r.c1 * b.r1.c0 + r.c2 * b.r2.c0 + r.c3 * b.r3.c0,
         r.c0 * b.r0.c1 + r.c1 * b.r1.c1 + r.c2 * b.r2.c1 + r.c3 * b.r3.c1,
         r.c0 * b.r0.c2 + r.c1 * b.r1.c2 + r.c2 * b.r2.c2 + r.c3 * b.r3.c2,
         r.c0 * b.r0.c3 + r.c1 * b.r1.c3 + r.c2 * b.r2.c3 + r.c3 * b.r3.c3)
  }

  /** The matrix product `a @ b`. */
  function Mul4(a: Mat4, b: Mat4): Mat4
  {
    Mat4(RowTimes(a.r0, b), RowTimes(a.r1, b), RowTimes(a.r2, b), RowTimes(a.r3, b))
  }

  function Dot(u: Vec3, v: Vec3): real
  {
    u.x * v.x + u.y * v.y + u.z * v.z
  }

  function Add3(u: Vec3, v: Vec3): Vec3
  {
    Vec3(u.x + v.x, u.y + v.y, u.z + v.z)
  }

  /** A 3x3 matrix applied to a vector. */
  function Apply3(a: Mat3, v: Vec3): Vec3
  {
    Vec3(Dot(a.r0, v), Dot(a.r1, v), Dot(a.r2, v))
  }

  function Column0(a: Mat3): Vec3 { Vec3(a.r0.x, a.r1.x, a.r2.x) }
  function Column1(a: Mat3): Vec3 { Vec3(a.r0.y, a.r1.y, a.r2.y) }
  function Column2(a: Mat3): Vec3 { Vec3(a.r0.z, a.r1.z, a.r2.z) }

  function Transpose3(a: Mat3): Mat3
  {
    Mat3(Column0(a), Column1(a), Column2(a))
  }

  /** The product of two 3x3 matrices. */
  function Mul3(a: Mat3, b: Mat3): Mat3
  {
    var bt := Transpose3(b);
    Mat3(Apply3(bt, a.r0), Apply3(bt, a.r1), Apply3(bt, a.r2))
  }

  function Identity3(): Mat3
  {
    Mat3(Vec3(1.0, 0.0, 0.0), Vec3(0.0, 1.0, 0.0), Vec3(0.0, 0.0, 1.0))
  }

  /** A rotation: its transpose is its inverse. */
  predicate IsOrthonormal(r: Mat3)
  {
    Mul3(Transpose3(r), r) == Identity3()
  }

  /** The transform with rotation `r` and translation `p`. */
  function FromParts(r: Mat3, p: Vec3): (m: Mat4)
    ensures IsHomogeneous(m)
  {
    Mat4(Row4(r.r0.x, r.r0.y, r.r0.z, p.x),
         Row4(r.r1.x, r.r1.y, r.r1.z, p.y),
         Row4(r.r2.x, r.r2.y, r.r2.z, p.z),
         AffineRow)
  }

  /** A 4x4 matrix wrapped with its rotation and translation views. */
  datatype HomeMatrix = HomeMatrix(data: Mat4)
  {
    /** The top-left 3x3 block. */
    function RotationPart(): Mat3
    {
      Mat3(Vec3(data.r0.c0, data.r0.c1, data.r0.c2),
           Vec3(data.r1.c0, data.r1.c1, data.r1.c2),
           Vec3(data.r2.c0, data.r2.c1, data.r2.c2))
    }

    /** The first three entries of the last column. */
    function TransitionPart(): Vec3
    {
      Vec3(data.r0.c3, data.r1.c3, data.r2.c3)
    }

    /** `self.data @ h.data`, returned as a plain matrix. For two homogeneous
        transforms it is their rigid composition: the rotations multiply, and the
        second translation is turned by the first rotation and then shifted by the
        first translation. This is the law of the lemma `Compose`, restated for the
        wrapped matrices; both branches compute the same product, and the test only
        decides whether `Compose` may be applied. */
    function Mul(h: HomeMatrix): (m: Mat4)
      ensures IsHomogeneous(data) && IsHomogeneous(h.data) ==>
        IsHomogeneous(m) &&
        HomeMatrix(m).RotationPart() == Mul3(RotationPart(), h.RotationPart()) &&
        HomeMatrix(m).TransitionPart() == Add3(Apply3(RotationPart(), h.TransitionPart()), TransitionPart())
    {
      if IsHomogeneous(data) && IsHomogeneous(h.data) then
        Compose(data, h.data);
        Mul4(data, h.data)
      else
        Mul4(data, h.data)
    }
  }

  /** A homogeneous transform is determined by its two views: splitting it and
      putting the parts back together gives it again. */
  lemma PartsRoundTrip(m: Mat4)
    requires IsHomogeneous(m)
    ensures FromParts(HomeMatrix(m).RotationPart(), HomeMatrix(m).TransitionPart()) == m
  {
  }

  /** The views of a transform built from a rotation and a translation are that
      rotation and that translation. */
  lemma FromPartsViews(r: Mat3, p: Vec3)
    ensures HomeMatrix(FromParts(r, p)).RotationPart() == r
    ensures HomeMatrix(FromParts(r, p)).TransitionPart() == p
  {
  }

  /** Composition of homogeneous transforms in terms of their views. */
  lemma Compose(a: Mat4, b: Mat4)
    requires IsHomogeneous(a) && IsHomogeneous(b)
    ensures IsHomogeneous(Mul4(a, b))
    ensures HomeMatrix(Mul4(a, b)).RotationPart() ==
            Mul3(HomeMatrix(a).RotationPart(), HomeMatrix(b).RotationPart())
    ensures HomeMatrix(Mul4(a, b)).TransitionPart() ==
            Add3(Apply3(HomeMatrix(a).RotationPart(), HomeMatrix(b).TransitionPart()),
                 HomeMatrix(a).TransitionPart())
  {
  }

  /** The identity is a unit of the product on both sides. */
  lemma IdentityUnit(m: Mat4)
    ensures Mul4(Identity4(), m) == m
    ensures Mul4(m, Identity4()) == m
  {
  }

  /** Turning two vectors by a rotation keeps their dot product. */
  lemma ApplyKeepsDot(a: Mat3, u: Vec3, v: Vec3)
    requires IsOrthonormal(a)
    ensures Dot(Apply3(a, u), Apply3(a, v)) == Dot(u, v)
  {
    DotAdjoint(a, u, Apply3(a, v));
    ApplyProduct(Transpose3(a), a, v);
    assert Apply3(Identity3(), v) == v;
  }

  /** Moving a matrix across a dot product transposes it. */
  lemma DotAdjoint(a: Mat3, u: Vec3, w: Vec3)
    ensures Dot(Apply3(a, u), w) == Dot(u, Apply3(Transpose3(a), w))
  {
    Distribute(a.r0.x * u.x, a.r0.y * u.y, a.r0.z * u.z, w.x);
    Distribute(a.r1.x * u.x, a.r1.y * u.y, a.r1.z * u.z, w.y);
    Distribute(a.r2.x * u.x, a.r2.y * u.y, a.r2.z * u.z, w.z);
    Distribute(a.r0.x * w.x, a.r1.x * w.y, a.r2.x * w.z, u.x);
    Distribute(a.r0.y * w.x, a.r1.y * w.y, a.r2.y * w.z, u.y);
    Distribute(a.r0.z * w.x, a.r1.z * w.y, a.r2.z * w.z, u.z);
  }

  lemma Distribute(p: real, q: real, r: real, w: real)
    ensures (p + q + r) * w == p * w + q * w + r * w
    ensures w * (p + q + r) == w * p + w * q + w * r
  {
  }

  /** Applying `c` and then `b` is applying the product `b c`. */
  lemma ApplyProduct(b: Mat3, c: Mat3, v: Vec3)
    ensures Apply3(b, Apply3(c, v)) == Apply3(Mul3(b, c), v)
  {
    RowApplyProduct(b.r0, c, v);
    RowApplyProduct(b.r1, c, v);
    RowApplyProduct(b.r2, c, v);
  }

  /** One row of `ApplyProduct`. */
  lemma RowApplyProduct(r: Vec3, c: Mat3, v: Vec3)
    ensures Dot(r, Apply3(c, v)) == Dot(Apply3(Transpose3(c), r), v)
  {
    assert Dot(r, Apply3(c, v)) == r.x * Dot(c.r0, v) + r.y * Dot(c.r1, v) + r.z * Dot(c.r2, v);
    assert Dot(Apply3(Transpose3(c), r), v) == Dot(Column0(c), r) * v.x + Dot(Column1(c), r) * v.y + Dot(Column2(c), r) * v.z;
  }

  /** The product of two rotations is a rotation. */
  lemma OrthonormalProduct(a: Mat3, b: Mat3)
    requires IsOrthonormal(a) && IsOrthonormal(b)
    ensures IsOrthonormal(Mul3(a, b))
  {
    var c := Mul3(a, b);
    var b0, b1, b2 := Column0(b), Column1(b), Column2(b);
    assert Column0(c) == Apply3(a, b0) && Column1(c) == Apply3(a, b1) && Column2(c) == Apply3(a, b2);
    ApplyKeepsDot(a, b0, b0);
    ApplyKeepsDot(a, b0, b1);
    ApplyKeepsDot(a, b0, b2);
    ApplyKeepsDot(a, b1, b1);
    ApplyKeepsDot(a, b1, b2);
    ApplyKeepsDot(a, b2, b2);
    ApplyKeepsDot(a, b1, b0);
    ApplyKeepsDot(a, b2, b0);
    ApplyKeepsDot(a, b2, b1);
  }

  /** The sixteen entries, row by row. */
  function Entries(m: Mat4): (s: seq<real>)
    ensures |s| == 16
  {
    [m.r0.c0, m.r0.c1, m.r0.c2, m.r0.c3, m.r1.c0, m.r1.c1, m.r1.c2, m.r1.c3,
     m.r2.c0, m.r2.c1, m.r2.c2, m.r2.c3, m.r3.c0, m.r3.c1, m.r3.c2, m.r3.c3]
  }

  /** The entrywise difference `a - b`. */
  function Sub4(a: Mat4, b: Mat4): Mat4
  {
    Mat4(Row4(a.r0.c0 - b.r0.c0, a.r0.c1 - b.r0.c1, a.r0.c2 - b.r0.c2, a.r0.c3 - b.r0.c3),
         Row4(a.r1.c0 - b.r1.c0, a.r1.c1 - b.r1.c1, a.r1.c2 - b.r1.c2, a.r1.c3 - b.r1.c3),
         Row4(a.r2.c0 - b.r2.c0, a.r2.c1 - b.r2.c1, a.r2.c2 - b.r2.c2, a.r2.c3 - b.r2.c3),
         Row4(a.r3.c0 - b.r3.c0, a.r3.c1 - b.r3.c1, a.r3.c2 - b.r3.c2, a.r3.c3 - b.r3.c3))
  }

  function SumOfSquares(s: seq<real>): real
  {
    if s == [] then 0.0 else Square(s[0]) + SumOfSquares(s[1..])
  }

  /** `a * b` under a name of its own, so that a square is seen as a product of
      two factors. */
  function Product(a: real, b: real): real
  {
    a * b
  }

  /** The product of two positive numbers is positive. */
  lemma ProductPositive(a: real, b: real)
    requires a > 0.0 && b > 0.0
    ensures Product(a, b) > 0.0
  {
  }

  /** The square of `x`, `x * x`: never negative, and positive away from zero.
      The product goes through `Product`, split on the sign of `x`, because the
      solver otherwise loses facts about the sign of `x * x`; every branch is
      still `x * x`. */
  function Square(x: real): (r: real)
    ensures r >= 0.0
    ensures x != 0.0 ==> r > 0.0
  {
    if x > 0.0 then ProductPositive(x, x); Product(x, x)
    else if x < 0.0 then ProductPositive(-x, -x); Product(-x, -x)
    else 0.0
  }

  /** A sum of squares is never negative, and it is zero exactly when every term is. */
  lemma {:induction false} SumOfSquaresZero(s: seq<real>)
    ensures SumOfSquares(s) >= 0.0
    ensures SumOfSquares(s) == 0.0 <==> forall i :: 0 <= i < |s| ==> s[i] == 0.0
  {
    if s != [] {
      var rest := s[1..];
      SumOfSquaresZero(rest);
      assert SumOfSquares(s) == Square(s[0]) + SumOfSquares(rest);
      if SumOfSquares(s) == 0.0 {
        forall i | 0 <= i < |s| ensures s[i] == 0.0 {
          if i > 0 { assert s[i] == rest[i - 1]; }
        }
      }
      if forall i :: 0 <= i < |s| ==> s[i] == 0.0 {
        forall i | 0 <= i < |rest| ensures rest[i] == 0.0 {
          assert rest[i] == s[i + 1];
        }
      }
    }
  }

  /** The square of the Frobenius norm of `a - b`. */
  function SquaredDistance(a: Mat4, b: Mat4): real
  {
    SumOfSquares(Entries(Sub4(a, b)))
  }

  /** The distance between two matrices is never negative and is zero exactly
      when they are equal. */
  lemma DistanceZero(a: Mat4, b: Mat4)
    ensures SquaredDistance(a, b) >= 0.0
    ensures SquaredDistance(a, b) == 0.0 <==> a == b
  {
    SumOfSquaresZero(Entries(Sub4(a, b)));
    if a == b {
      ZeroEntries(a);
    }
    if SquaredDistance(a, b) == 0.0 {
      EqualOfZeroEntries(a, b);
    }
  }

  lemma ZeroEntries(a: Mat4)
    ensures forall i :: 0 <= i < 16 ==> Entries(Sub4(a, a))[i] == 0.0
  {
    var e := Entries(Sub4(a, a));
    assert e == [0.0, 0.0, 0.0, 0.0, 0.0, 0.0, 0.0, 0.0, 0.0, 0.0, 0.0, 0.0, 0.0, 0.0, 0.0, 0.0];
  }

  lemma EqualOfZeroEntries(a: Mat4, b: Mat4)
    requires forall i :: 0 <= i < 16 ==> Entries(Sub4(a, b))[i] == 0.0
    ensures a == b
  {
    var e := Entries(Sub4(a, b));
    assert e[0] == 0.0 && e[1] == 0.0 && e[2] == 0.0 && e[3] == 0.0;
    assert e[4] == 0.0 && e[5] == 0.0 && e[6] == 0.0 && e[7] == 0.0;
    assert e[8] == 0.0 && e[9] == 0.0 && e[10] == 0.0 && e[11] == 0.0;
    assert e[12] == 0.0 && e[13] == 0.0 && e[14] == 0.0 && e[15] == 0.0;
    assert a.r0 == b.r0 && a.r1 == b.r1 && a.r2 == b.r2 && a.r3 == b.r3;
  }
}
