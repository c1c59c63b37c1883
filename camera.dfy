/** The pinhole model of the simulated depth camera: the intrinsic parameters
    derived once from the field of view and the resolution, and the
    unprojection of one pixel of a depth image to metric offsets from the
    optical axis. */
module Pinhole {
  import opened Trigonometry
  import opened Results

  /** Indexing the depth image outside its bounds (numpy's IndexError). */
  datatype CameraError = IndexOutOfRange

  /** The focal length in pixels, `1 / (2 tan(angle / 2))` for an angle in
      degrees. It undoes twice the tangent of the half angle, and it is positive
      exactly when that tangent is. */
  function FocalScale(t: Trig, angle: real): (ax: real)
    requires t.tan(angle * t.pi / 360.0) != 0.0
    ensures 2.0 * t.tan(angle * t.pi / 360.0) * ax == 1.0
    ensures ax > 0.0 <==> t.tan(angle * t.pi / 360.0) > 0.0
    ensures ax != 0.0
  {
    // Half the angle, converted from degrees to radians, in the source's order.
    var half := angle / 2.0 * t.pi / 180.0;
    assert half == angle * t.pi / 360.0;
    1.0 / (2.0 * t.tan(half))
  }

  /** numpy accepts an index `i` along an axis of length `n` when -n <= i < n. */
  predicate IndexOk(i: int, n: int)
  {
    -n <= i < n
  }

  /** The position numpy reads for an accepted index: negative indices count
      from the end. */
  function Resolve(i: int, n: int): (k: int)
    requires IndexOk(i, n)
    ensures 0 <= k < n
    ensures 0 <= i ==> k == i
    ensures i < 0 ==> k == n + i
  {
    if i < 0 then n + i else i
  }

  /** The camera with its intrinsic matrix
        [ax  0  u0]
        [ 0 ay  v0]
        [ 0  0   1]
      set once at construction and never changed. */
  class Camera {
    const ax: real
    const ay: real
    const u0: real
    const v0: real

    /** Square pixels and a finite, non-zero focal length. */
    predicate Valid()
    {
      ax != 0.0 && ay == ax
    }

    /** The intrinsics of a sensor with perspective angle `angle` (in degrees)
        and resolution `width` x `height` pixels. */
    constructor (t: Trig, angle: real, width: int, height: int)
      requires t.tan(angle * t.pi / 360.0) != 0.0
      ensures Valid()
      ensures ax == FocalScale(t, angle) && ay == ax
      ensures u0 == width as real / 2.0 && v0 == height as real / 2.0
    {
      ax := FocalScale(t, angle);
      ay := FocalScale(t, angle);
      u0 := width as real / 2.0;
      v0 := height as real / 2.0;
    }

    /** The offsets (X, Y) from the optical axis of the point at depth `z` seen
        at pixel (u, v): the pixel offset from the principal point, scaled by
        depth over focal length. */
    function Unproject(z: real, u: real, v: real): (p: (real, real))
      requires Valid()
      ensures ax * p.0 == z * (u - u0)
      ensures ay * p.1 == z * (v - v0)
    {
      (z * (u - u0) / ax, z * (v - v0) / ay)
    }

    /** The intrinsic matrix applied to a point (x, y, z) in front of the camera:
        the pixel it appears at. */
    function Project(x: real, y: real, z: real): (uv: (real, real))
      requires z != 0.0
      ensures z * (uv.0 - u0) == ax * x
      ensures z * (uv.1 - v0) == ay * y
    {
      (ax * x / z + u0, ay * y / z + v0)
    }

    /** `uv2XYZ`: reads the depth at row `v`, column `u` of the depth image and
        unprojects that pixel. Indices follow numpy: a negative index counts from
        the end, and one outside the image fails. */
    function Uv2Xyz(img: array2<real>, u: int, v: int): (r: Result<(real, real), CameraError>)
      requires Valid()
      reads img
      ensures r.Success? <==> IndexOk(v, img.Length0) && IndexOk(u, img.Length1)
      ensures r.Failure? ==> r.error == IndexOutOfRange
      ensures r.Success? ==>
        r.value == Unproject(img[Resolve(v, img.Length0), Resolve(u, img.Length1)], u as real, v as real)
      ensures r.Success? && 0 <= u && 0 <= v ==> r.value == Unproject(img[v, u], u as real, v as real)
    {
      if IndexOk(v, img.Length0) && IndexOk(u, img.Length1) then
        var z := img[Resolve(v, img.Length0), Resolve(u, img.Length1)];
        Success(Unproject(z, u as real, v as real))
      else
        Failure(IndexOutOfRange)
    }

    /** The principal point lies on the optical axis, whatever the depth. */
    lemma PrincipalPointMapsToOrigin(z: real)
      requires Valid()
      ensures Unproject(z, u0, v0) == (0.0, 0.0)
    {
    }

    /** Unprojection is linear in depth: scaling the depth scales both offsets,
        and zero depth gives the origin. */
    lemma DepthLinearity(z: real, k: real, u: real, v: real)
      requires Valid()
      ensures Unproject(k * z, u, v).0 == k * Unproject(z, u, v).0
      ensures Unproject(k * z, u, v).1 == k * Unproject(z, u, v).1
      ensures Unproject(0.0, u, v) == (0.0, 0.0)
    {
      var p := Unproject(z, u, v);
      var q := Unproject(k * z, u, v);
      assert ax * q.0 == ax * (k * p.0);
      assert ay * q.1 == ay * (k * p.1);
      CancelFactor(ax, q.0, k * p.0);
      CancelFactor(ay, q.1, k * p.1);
    }

    /** In front of a camera with positive focal length, each offset has the sign
        of the pixel's offset from the principal point. */
    lemma SignFollowsOffset(z: real, u: real, v: real)
      requires Valid() && ax > 0.0 && z > 0.0
      ensures Unproject(z, u, v).0 > 0.0 <==> u > u0
      ensures Unproject(z, u, v).0 < 0.0 <==> u < u0
      ensures Unproject(z, u, v).1 > 0.0 <==> v > v0
      ensures Unproject(z, u, v).1 < 0.0 <==> v < v0
    {
      var p := Unproject(z, u, v);
      ProductSign(z, u - u0);
      ProductSign(z, v - v0);
      ProductSign(ax, p.0);
      ProductSign(ay, p.1);
    }

    /** Projecting an unprojected pixel at non-zero depth gives the pixel back. */
    lemma ProjectUnproject(z: real, u: real, v: real)
      requires Valid() && z != 0.0
      ensures Project(Unproject(z, u, v).0, Unproject(z, u, v).1, z) == (u, v)
    {
      var p := Unproject(z, u, v);
      var uv := Project(p.0, p.1, z);
      assert z * (uv.0 - u0) == z * (u - u0);
      assert z * (uv.1 - v0) == z * (v - v0);
      CancelFactor(z, uv.0 - u0, u - u0);
      CancelFactor(z, uv.1 - v0, v - v0);
    }

    /** Unprojecting the pixel a point projects to, at the point's depth, gives
        the point's offsets back. */
    lemma UnprojectProject(x: real, y: real, z: real)
      requires Valid() && z != 0.0
      ensures Unproject(z, Project(x, y, z).0, Project(x, y, z).1) == (x, y)
    {
      var uv := Project(x, y, z);
      var p := Unproject(z, uv.0, uv.1);
      assert ax * p.0 == ax * x;
      assert ay * p.1 == ay * y;
      CancelFactor(ax, p.0, x);
      CancelFactor(ay, p.1, y);
    }

    /** For a camera whose focal length is the focal scale of `angle` (as the
        constructor sets it, see `FocalScale`), the offsets written directly with
        the perspective angle: X = 2 z (u - u0) tan(angle / 2), and likewise Y. */
    lemma OffsetClosedForm(t: Trig, angle: real, z: real, u: real, v: real)
      requires Valid() && 2.0 * t.tan(angle * t.pi / 360.0) * ax == 1.0
      ensures Unproject(z, u, v).0 == 2.0 * z * (u - u0) * t.tan(angle * t.pi / 360.0)
      ensures Unproject(z, u, v).1 == 2.0 * z * (v - v0) * t.tan(angle * t.pi / 360.0)
    {
      ScaleByReciprocal(t.tan(angle * t.pi / 360.0), ax, z * (u - u0));
      ScaleByReciprocal(t.tan(angle * t.pi / 360.0), ay, z * (v - v0));
    }

    /** A successful read at non-zero depth projects back to the pixel that was
        read, with the indices as given (negative ones included). */
    lemma Uv2XyzRoundTrip(img: array2<real>, u: int, v: int)
      requires Valid() && IndexOk(v, img.Length0) && IndexOk(u, img.Length1)
      requires img[Resolve(v, img.Length0), Resolve(u, img.Length1)] != 0.0
      ensures Uv2Xyz(img, u, v).Success?
      ensures
        var z := img[Resolve(v, img.Length0), Resolve(u, img.Length1)];
        Project(Uv2Xyz(img, u, v).value.0, Uv2Xyz(img, u, v).value.1, z) == (u as real, v as real)
    {
      ProjectUnproject(img[Resolve(v, img.Length0), Resolve(u, img.Length1)], u as real, v as real);
    }
  }

  /** Dividing by `a` is multiplying by `2 c` when `2 c a = 1`. */
  lemma ScaleByReciprocal(c: real, a: real, w: real)
    requires a != 0.0 && 2.0 * c * a == 1.0
    ensures w / a == 2.0 * w * c
  {
    assert w == w * (2.0 * c * a);
  }

  /** A non-zero factor cancels. */
  lemma CancelFactor(c: real, x: real, y: real)
    requires c != 0.0 && c * x == c * y
    ensures x == y
  {
  }

  /** With a positive first factor, a product has the sign of its second factor. */
  lemma ProductSign(c: real, x: real)
    requires c > 0.0
    ensures c * x > 0.0 <==> x > 0.0
    ensures c * x < 0.0 <==> x < 0.0
  {
  }
}
