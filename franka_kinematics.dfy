/** Forward kinematics of the Franka Panda arm in the Denavit-Hartenberg
    convention: a fixed table of link parameters, the closed-form transform of
    one link, the product of the link transforms along the chain, and the shell
    around the numerical inverse solver. */
module FrankaKinematics {
  import opened Trigonometry
  import opened Results
  import opened HomeMatrices

  // ---------------------------------------------------------------------------
  // The link parameter table

  /** One row of the Denavit-Hartenberg table: link length `a`, link offset `d`
      along the joint axis and link twist `alp`. */
  datatype DhParameter = DhParameter(a: real, d: real, alp: real)

  /** The Panda's parameter table, keyed by segment name. */
  function DhParameterList(pi: real): map<string, DhParameter>
  {
    map[
      "j1"      := DhParameter(0.0, 0.333, 0.0),
      "j2"      := DhParameter(0.0, 0.0, -pi / 2.0),
      "j3"      := DhParameter(0.0, 0.316, pi / 2.0),
      "j4"      := DhParameter(0.0825, 0.0, pi / 2.0),
      "j5"      := DhParameter(-0.0825, 0.384, -pi / 2.0),
      "j6"      := DhParameter(0.0, 0.0, pi / 2.0),
      "j7"      := DhParameter(0.088, 0.0, pi / 2.0),
      "flange"  := DhParameter(0.0, 0.107, 0.0),
      "gripper" := DhParameter(0.0, 0.1034, 0.0)
    ]
  }

  /** The documented home configuration. */
  function HomeJoint(pi: real): seq<real>
  {
    [0.0, -pi / 4.0, 0.0, -3.0 * pi / 4.0, 0.0, pi / 2.0, pi / 4.0]
  }

  /** The closed interval allowed for each joint, as (lower, upper). */
  function JointBounds(): seq<(real, real)>
  {
    [(-2.8973, 2.8973), (-1.7628, 1.7628), (-2.8973, 2.8973),
     (-3.071, -0.0698), (-2.8973, 2.8973), (-0.0175, 3.7525), (-2.8973, 2.8973)]
  }

  /** The home configuration lies within the joint bounds (for any value of pi
      close to the true one). */
  lemma HomeJointWithinBounds(pi: real)
    requires 3.14 < pi < 3.15
    ensures |HomeJoint(pi)| == |JointBounds()| == 7
    ensures forall i :: 0 <= i < 7 ==> JointBounds()[i].0 <= HomeJoint(pi)[i] <= JointBounds()[i].1
  {
  }

  // ---------------------------------------------------------------------------
  // Joint names

  function DigitChar(d: nat): char
    requires d < 10
  {
    "0123456789"[d]
  }

  /** Python's `str` on a natural number: its decimal digits. */
  function NatToString(n: nat): (s: string)
    ensures 1 <= |s|
    ensures n < 10 <==> |s| == 1
    decreases n
  {
    if n < 10 then [DigitChar(n)] else NatToString(n / 10) + [DigitChar(n % 10)]
  }

  /** `'j' + str(k)`, the table key of the k-th joint. */
  function JointName(k: nat): string
  {
    "j" + NatToString(k)
  }

  /** Exactly the joints 1 to 7 have a row in the table, and no joint name is one
      of the two terminal segments, so the chain never applies them. */
  lemma JointNameInTable(pi: real, k: nat)
    ensures JointName(k) in DhParameterList(pi) <==> 1 <= k <= 7
    ensures JointName(k) != "flange" && JointName(k) != "gripper"
  {
    var name := JointName(k);
    assert name[0] == 'j';
    assert "flange"[0] == 'f' && "gripper"[0] == 'g';
    if k < 10 {
      assert name == ['j', DigitChar(k)];
    } else {
      assert |name| >= 3;
    }
  }

  /** The parameters of joint k, for 1 <= k <= 7. */
  function JointParameters(pi: real, k: nat): DhParameter
    requires 1 <= k <= 7
  {
    JointNameInTable(pi, k);
    DhParameterList(pi)[JointName(k)]
  }

  // ---------------------------------------------------------------------------
  // One link

  datatype KinematicsError = UnknownJoint(name: string) | IkFailure

  /** The closed-form transform of a link with parameters `p` at joint angle `theta`. */
  function LinkMatrix(t: Trig, theta: real, p: DhParameter): Mat4
  {
    var cTheta, sTheta := t.cos(theta), t.sin(theta);
    var cAlp, sAlp := t.cos(p.alp), t.sin(p.alp);
    Mat4(Row4(cTheta,        -sTheta,       0.0,   p.a),
         Row4(sTheta * cAlp, cTheta * cAlp, -sAlp, -p.d * sAlp),
         Row4(sTheta * sAlp, cTheta * sAlp, cAlp,  p.d * cAlp),
         AffineRow)
  }

  /** Where a link with parameters `p` puts the next frame's origin: `a` along x,
      then `d` along the joint axis turned by the twist. */
  function LinkOffsetOf(t: Trig, p: DhParameter): Vec3
  {
    Vec3(p.a, -p.d * t.sin(p.alp), p.d * t.cos(p.alp))
  }

  /** `dh_home_matrix`: the transform of the named segment at angle `theta`; a name
      missing from the table raises a key error. */
  function DhHomeMatrix(t: Trig, theta: real, jointName: string): (r: Result<Mat4, KinematicsError>)
    ensures r.Success? <==> jointName in DhParameterList(t.pi)
    ensures r.Failure? ==> r.error == UnknownJoint(jointName)
    ensures r.Success? ==> IsHomogeneous(r.value) && r.value.r0.c2 == 0.0
    ensures r.Success? ==>
      var p := DhParameterList(t.pi)[jointName];
      HomeMatrix(r.value).TransitionPart() == LinkOffsetOf(t, p)
  {
    if jointName in DhParameterList(t.pi) then
      Success(LinkMatrix(t, theta, DhParameterList(t.pi)[jointName]))
    else
      Failure(UnknownJoint(jointName))
  }

  /** Rotation by `alp` about x. */
  function RotX(t: Trig, alp: real): Mat4
  {
    Mat4(Row4(1.0, 0.0,        0.0,         0.0),
         Row4(0.0, t.cos(alp), -t.sin(alp), 0.0),
         Row4(0.0, t.sin(alp), t.cos(alp),  0.0),
         AffineRow)
  }

  /** Rotation by `theta` about z. */
  function RotZ(t: Trig, theta: real): Mat4
  {
    Mat4(Row4(t.cos(theta), -t.sin(theta), 0.0, 0.0),
         Row4(t.sin(theta), t.cos(theta),  0.0, 0.0),
         Row4(0.0,          0.0,           1.0, 0.0),
         AffineRow)
  }

  /** Translation by `a` along x. */
  function TransX(a: real): Mat4
  {
    Mat4(Row4(1.0, 0.0, 0.0, a), Row4(0.0, 1.0, 0.0, 0.0), Row4(0.0, 0.0, 1.0, 0.0), AffineRow)
  }

  /** Translation by `d` along z. */
  function TransZ(d: real): Mat4
  {
    Mat4(Row4(1.0, 0.0, 0.0, 0.0), Row4(0.0, 1.0, 0.0, 0.0), Row4(0.0, 0.0, 1.0, d), AffineRow)
  }

  /** The closed form is the Denavit-Hartenberg composition
      Rot_x(alp) * Trans_x(a) * Rot_z(theta) * Trans_z(d). */
  lemma DhConvention(t: Trig, theta: real, p: DhParameter)
    ensures LinkMatrix(t, theta, p) ==
            Mul4(Mul4(Mul4(RotX(t, p.alp), TransX(p.a)), RotZ(t, theta)), TransZ(p.d))
  {
    var cTheta, sTheta := t.cos(theta), t.sin(theta);
    var cAlp, sAlp := t.cos(p.alp), t.sin(p.alp);
    var e1 := Mat4(Row4(1.0, 0.0, 0.0, p.a), Row4(0.0, cAlp, -sAlp, 0.0), Row4(0.0, sAlp, cAlp, 0.0), AffineRow);
    assert Mul4(RotX(t, p.alp), TransX(p.a)) == e1;
    var e2 := Mat4(Row4(cTheta, -sTheta, 0.0, p.a),
                   Row4(sTheta * cAlp, cTheta * cAlp, -sAlp, 0.0),
                   Row4(sTheta * sAlp, cTheta * sAlp, cAlp, 0.0),
                   AffineRow);
    assert Mul4(e1, RotZ(t, theta)) == e2;
  }

  /** The two terminal segments (and the first joint) have no length and no twist:
      at angle 0 their transform is a pure translation by their offset along z. */
  lemma UntwistedSegmentsTranslate(t: Trig)
    requires ValuesAtZero(t)
    ensures DhHomeMatrix(t, 0.0, "flange") == Success(TransZ(0.107))
    ensures DhHomeMatrix(t, 0.0, "gripper") == Success(TransZ(0.1034))
    ensures DhHomeMatrix(t, 0.0, "j1") == Success(TransZ(0.333))
  {
    assert DhParameterList(t.pi)["flange"] == DhParameter(0.0, 0.107, 0.0);
    assert DhParameterList(t.pi)["gripper"] == DhParameter(0.0, 0.1034, 0.0);
    assert DhParameterList(t.pi)["j1"] == DhParameter(0.0, 0.333, 0.0);
  }

  /** With sin^2 + cos^2 = 1, the rotation block of every link transform is
      orthonormal: its transpose times itself is the identity. */
  lemma LinkRotationOrthonormal(t: Trig, theta: real, p: DhParameter)
    requires Pythagorean(t)
    ensures IsOrthonormal(HomeMatrix(LinkMatrix(t, theta, p)).RotationPart())
  {
    var cTheta, sTheta := t.cos(theta), t.sin(theta);
    var cAlp, sAlp := t.cos(p.alp), t.sin(p.alp);
    assert sTheta * sTheta + cTheta * cTheta == 1.0;
    assert sAlp * sAlp + cAlp * cAlp == 1.0;
    LinkRotationGram(cTheta, sTheta, cAlp, sAlp);
  }

  /** The rotation block of the closed form, for any cosines and sines of the two
      angles that satisfy the Pythagorean identity, is orthonormal. */
  lemma LinkRotationGram(cTheta: real, sTheta: real, cAlp: real, sAlp: real)
    requires sTheta * sTheta + cTheta * cTheta == 1.0 && sAlp * sAlp + cAlp * cAlp == 1.0
    ensures IsOrthonormal(Mat3(Vec3(cTheta, -sTheta, 0.0),
                               Vec3(sTheta * cAlp, cTheta * cAlp, -sAlp),
                               Vec3(sTheta * sAlp, cTheta * sAlp, cAlp)))
  {
    var r := Mat3(Vec3(cTheta, -sTheta, 0.0),
                  Vec3(sTheta * cAlp, cTheta * cAlp, -sAlp),
                  Vec3(sTheta * sAlp, cTheta * sAlp, cAlp));
    var g := Mul3(Transpose3(r), r);
    var twist := cAlp * cAlp + sAlp * sAlp;
    assert g.r0.x == cTheta * cTheta + (sTheta * sTheta) * twist by {
      Factor(sTheta * sTheta, cAlp * cAlp, sAlp * sAlp);
    }
    assert g.r1.y == sTheta * sTheta + (cTheta * cTheta) * twist by {
      Factor(cTheta * cTheta, cAlp * cAlp, sAlp * sAlp);
    }
    assert g.r0.y == -(cTheta * sTheta) + (sTheta * cTheta) * twist by {
      Factor(sTheta * cTheta, cAlp * cAlp, sAlp * sAlp);
    }
    assert g.r1.x == g.r0.y;
    assert g.r2.z == sAlp * sAlp + cAlp * cAlp;
  }

  lemma Factor(x: real, p: real, q: real)
    ensures x * p + x * q == x * (p + q)
  {
  }

  // ---------------------------------------------------------------------------
  // The chain

  /** The transform of joint k (1 <= k <= 7) at angle `theta`. */
  function Link(t: Trig, theta: real, k: nat): (m: Mat4)
    requires 1 <= k <= 7
    ensures DhHomeMatrix(t, theta, JointName(k)) == Success(m)
  {
    JointNameInTable(t.pi, k);
    LinkMatrix(t, theta, JointParameters(t.pi, k))
  }

  /** The translation of joint k's transform is its closed-form offset. */
  lemma LinkOffset(t: Trig, theta: real, k: nat)
    requires 1 <= k <= 7
    ensures
      var p := JointParameters(t.pi, k);
      HomeMatrix(Link(t, theta, k)).TransitionPart() == LinkOffsetOf(t, p)
  {
  }

  /** The left-to-right product I * H(q[0], j1) * ... * H(q[n-1], jn) for n <= 7. */
  function LinkChain(t: Trig, q: seq<real>): (h: Mat4)
    requires |q| <= 7
    ensures IsHomogeneous(h)
    decreases |q|
  {
    if q == [] then Identity4()
    else Mul4(LinkChain(t, q[..|q| - 1]), Link(t, q[|q| - 1], |q|))
  }

  /** `fk`: folds the link transforms of joints 1, 2, ... over `q`, starting from
      the identity. A configuration longer than seven angles reaches the name
      "j8", which is not in the table, and fails. */
  method Fk(t: Trig, q: seq<real>) returns (r: Result<Mat4, KinematicsError>)
    ensures r.Success? <==> |q| <= 7
    ensures r.Success? ==> r.value == LinkChain(t, q)
    ensures q == [] ==> r == Success(Identity4())
    ensures r.Failure? ==> r.error == UnknownJoint("j8")
  {
    var h := Identity4();
    var i := 0;
    while i < |q|
      invariant 0 <= i <= |q| && i <= 7
      invariant h == LinkChain(t, q[..i])
    {
      JointNameInTable(t.pi, i + 1);
      var link := DhHomeMatrix(t, q[i], JointName(i + 1));
      if link.Failure? {
        assert JointName(8) == "j8";
        return Failure(link.error);
      }
      assert q[..i + 1][..i] == q[..i];
      h := Mul4(h, link.value);
      i := i + 1;
    }
    assert q[..i] == q;
    r := Success(h);
  }

  /** Appending one angle multiplies the chain on the right by that joint's link. */
  lemma FkAppend(t: Trig, q: seq<real>, theta: real)
    requires |q| < 7
    ensures DhHomeMatrix(t, theta, JointName(|q| + 1)).Success?
    ensures LinkChain(t, q + [theta]) == Mul4(LinkChain(t, q), DhHomeMatrix(t, theta, JointName(|q| + 1)).value)
  {
    assert (q + [theta])[..|q|] == q;
    var _ := Link(t, theta, |q| + 1);
  }

  /** The translation after one more joint: the new link's closed-form offset
      (a, -d sin alp, d cos alp), turned by the chain's rotation so far, plus the
      chain's translation so far. */
  lemma FkTranslationStep(t: Trig, q: seq<real>, theta: real)
    requires |q| < 7
    ensures
      var h := HomeMatrix(LinkChain(t, q));
      var p := JointParameters(t.pi, |q| + 1);
      HomeMatrix(LinkChain(t, q + [theta])).TransitionPart() ==
        Add3(Apply3(h.RotationPart(), LinkOffsetOf(t, p)), h.TransitionPart())
  {
    var h := LinkChain(t, q);
    var link := Link(t, theta, |q| + 1);
    LinkOffset(t, theta, |q| + 1);
    FkAppend(t, q, theta);
    Compose(h, link);
  }

  /** With sin^2 + cos^2 = 1 the rotation block of the whole chain is orthonormal. */
  lemma {:induction false} FkRotationOrthonormal(t: Trig, q: seq<real>)
    requires Pythagorean(t) && |q| <= 7
    ensures IsOrthonormal(HomeMatrix(LinkChain(t, q)).RotationPart())
  {
    if q != [] {
      var prefix := q[..|q| - 1];
      FkRotationOrthonormal(t, prefix);
      var link := Link(t, q[|q| - 1], |q|);
      LinkRotationOrthonormal(t, q[|q| - 1], JointParameters(t.pi, |q|));
      Compose(LinkChain(t, prefix), link);
      OrthonormalProduct(HomeMatrix(LinkChain(t, prefix)).RotationPart(), HomeMatrix(link).RotationPart());
    }
  }

  // ---------------------------------------------------------------------------
  // Inverse kinematics

  /** The objective the inverse solver minimises at a configuration `q`: the
      distance between the chain's transform and the target, squared. It is never
      negative and it is zero exactly when the chain reaches the target. */
  function IkObjective(t: Trig, target: Mat4, q: seq<real>): (e: real)
    requires |q| <= 7
    ensures e >= 0.0
    ensures e == 0.0 <==> LinkChain(t, q) == target
  {
    DistanceZero(LinkChain(t, q), target);
    SquaredDistance(LinkChain(t, q), target)
  }

  /** What the bounded optimiser reports: whether it converged, and its final point. */
  datatype OptimizerReport = OptimizerReport(success: bool, x: seq<real>)

  /** `ik`: returns the optimiser's point when it reports success, and fails with
      an inverse-kinematics error otherwise. */
  function Ik(report: OptimizerReport): (r: Result<seq<real>, KinematicsError>)
    ensures r.Success? <==> report.success
    ensures r.Success? ==> r.value == report.x
    ensures r.Failure? ==> r.error == IkFailure
  {
    if report.success then Success(report.x) else Failure(IkFailure)
  }
}
