# Franka Panda kinematics and pinhole camera, in Dafny

This project models two small geometric pieces of a robot-grasping simulation:

- **Denavit–Hartenberg forward kinematics of the Franka Panda arm**
  (`simulation/src/franka_kinematics.py`). The model has four parts:
  - the table of link parameters `(a, d, alp)` for joints `j1`..`j7` and the
    `flange` and `gripper` segments, with the home pose and joint bounds;
  - the closed-form transform of one link, `dh_home_matrix`;
  - the forward chain `fk`, written as a loop over an accumulator matrix and proved
    equal to a recursive left-to-right product;
  - the `HomeMatrix` views (rotation block, translation column) and its product.
  The inverse solver `ik` appears only as a shell around the optimiser's report,
  together with the objective it minimises.
- **The pinhole depth camera** (`simulation/src/camera.py`). A `Camera` class
  holds the intrinsics `ax`, `ay`, `u0`, `v0`. They are computed once by the
  constructor from the perspective angle and the resolution, and never change.
  `uv2XYZ` reads one depth sample and unprojects that pixel.

The model works over exact reals, not floats.
- `sin`, `cos`, `tan` and `pi` are kept uninterpreted. They are the fields of a
  `Trig` value passed to every operation that needs them.
- Four facts about them are assumed, each only as a precondition where it is
  needed:
  - `ValuesAtZero` (sin 0 = 0, cos 0 = 1), in `UntwistedSegmentsTranslate`;
  - `Pythagorean` (sin² + cos² = 1), in `LinkRotationOrthonormal` and
    `FkRotationOrthonormal`;
  - 3.14 < pi < 3.15, in `HomeJointWithinBounds`;
  - tan(angle · pi / 360) ≠ 0 for the camera's perspective angle, in `FocalScale`
    and the `Camera` constructor (`OffsetClosedForm` instead takes
    2 · tan(angle · pi / 360) · ax = 1, which `FocalScale` guarantees).

Files:
- `common.dfy`: the `Trig` parameter and its two admissible facts
  (module `Trigonometry`), and a `Result` type (module `Results`).
- `home_matrix.dfy`: 4x4 and 3x3 matrices as records, `HomeMatrix` and the
  algebra of composing rigid transforms (module `HomeMatrices`).
- `franka_kinematics.dfy`: the parameter table, link transforms, `Fk` and the
  `ik` shell (module `FrankaKinematics`).
- `camera.dfy`: the camera (module `Pinhole`).

A few points where the model follows the code's actual behaviour:
- **Length of `fk`'s input.** The length check in `fk` is commented out
  (`simulation/src/franka_kinematics.py:93-95`). So `fk` accepts any number of
  angles from 0 to 7. An eighth angle makes it look up `'j8'`, which is not in the
  table and raises a key error. `Fk` therefore succeeds exactly when `|q| <= 7`
  and otherwise fails with `UnknownJoint("j8")`.
- **Return value of `uv2XYZ`.** It returns only the offsets `(X, Y)`, not the
  depth it read (`simulation/src/camera.py:22`), and so does `Uv2Xyz`.
- **Index checking in `uv2XYZ`.** The code does no bounds check of its own and
  relies on numpy indexing, so `Uv2Xyz` follows numpy:
  - an index `i` along an axis of length `n` is accepted when `-n <= i < n`;
  - a negative index counts from the end;
  - anything else is numpy's `IndexError`, modelled as a `Failure`.
  The offsets are still computed from the index as given, so a negative `u` stays
  negative in `u - u0`.

## Model

| member | source | states |
|---|---|---|
| HomeMatrices.HomeMatrix.RotationPart | simulation/src/franka_kinematics.py:18-19 | the top-left 3x3 block; no contract of its own, its meaning is stated by `PartsRoundTrip` and `FromPartsViews` |
| HomeMatrices.HomeMatrix.TransitionPart | simulation/src/franka_kinematics.py:21-22 | the first three entries of column 3; no contract of its own, its meaning is stated by `PartsRoundTrip` and `FromPartsViews` |
| HomeMatrices.Mul4 | simulation/src/franka_kinematics.py:25 | the 4x4 product `@` (and `np.dot` at line 100); no contract of its own, its laws are `Compose`, `IdentityUnit` and `OrthonormalProduct` |
| HomeMatrices.Identity4 | simulation/src/franka_kinematics.py:98 | `np.eye(4)`; it is homogeneous, and `IdentityUnit` shows it is a unit of the product |
| HomeMatrices.SquaredDistance | simulation/src/franka_kinematics.py:109 | the squared Frobenius norm of the difference; no contract of its own, its meaning is stated by `DistanceZero` |
| HomeMatrices.PartsRoundTrip | simulation/src/franka_kinematics.py:18-22 | a homogeneous transform is rebuilt exactly from its rotation block (the top-left 3x3 entries) and its translation (the first three entries of column 3) |
| HomeMatrices.FromPartsViews | simulation/src/franka_kinematics.py:18-22 | the rotation and translation views of a transform assembled from a rotation and a translation are those two parts |
| HomeMatrices.HomeMatrix.Mul | simulation/src/franka_kinematics.py:24-25 | the product of two homogeneous transforms is homogeneous; its rotation is the product of the rotations; its translation is the second translation turned by the first rotation plus the first translation |
| HomeMatrices.Compose | simulation/src/franka_kinematics.py:24-25 | the same composition law, for plain matrices with affine bottom rows |
| HomeMatrices.IdentityUnit | simulation/src/franka_kinematics.py:98-100 | the identity the chain starts from is a left and right unit of the product |
| HomeMatrices.OrthonormalProduct | simulation/src/franka_kinematics.py:24-25 | the product of two rotations (R^T R = I) is again a rotation |
| HomeMatrices.SumOfSquaresZero | simulation/src/franka_kinematics.py:108-109 | a sum of squares is non-negative, and it is zero if and only if every term is zero |
| HomeMatrices.DistanceZero | simulation/src/franka_kinematics.py:108-109 | the squared Frobenius distance between two 4x4 matrices is non-negative, and it is zero if and only if the matrices are equal |
| FrankaKinematics.DhParameterList | simulation/src/franka_kinematics.py:36-46 | the nine rows of the parameter table; no contract of its own, `JointNameInTable` and `UntwistedSegmentsTranslate` state facts about it |
| FrankaKinematics.HomeJoint | simulation/src/franka_kinematics.py:47 | the home configuration; no contract of its own, `HomeJointWithinBounds` states it lies inside the bounds |
| FrankaKinematics.JointBounds | simulation/src/franka_kinematics.py:49-50 | the seven joint bound intervals; no contract of its own, `HomeJointWithinBounds` uses them |
| FrankaKinematics.JointName | simulation/src/franka_kinematics.py:100 | `'j' + str(k)`; no contract of its own, `JointNameInTable` states which names are in the table |
| FrankaKinematics.LinkMatrix | simulation/src/franka_kinematics.py:77-82 | the closed-form link transform; no contract of its own, `DhConvention`, `LinkOffset` and `LinkRotationOrthonormal` state its meaning |
| FrankaKinematics.HomeJointWithinBounds | simulation/src/franka_kinematics.py:47-50 | the home configuration has seven angles, and each lies in its joint's closed bound interval (for any pi between 3.14 and 3.15) |
| FrankaKinematics.NatToString | simulation/src/franka_kinematics.py:100 | `str` of a natural number is non-empty, and has one character exactly when the number is below 10 |
| FrankaKinematics.JointNameInTable | simulation/src/franka_kinematics.py:36-46 | `'j' + str(k)` is a key of the parameter table if and only if 1 <= k <= 7, and it is never `flange` or `gripper` |
| FrankaKinematics.DhHomeMatrix | simulation/src/franka_kinematics.py:55-82 | succeeds if and only if the name is in the table, and fails with that name otherwise; on success the matrix has bottom row [0,0,0,1], entry (0,2) = 0, and translation (a, -d sin alp, d cos alp) from the name's table row |
| FrankaKinematics.DhConvention | simulation/src/franka_kinematics.py:57-66 | the closed form equals the composition Rot_x(alp) · Trans_x(a) · Rot_z(theta) · Trans_z(d) |
| FrankaKinematics.UntwistedSegmentsTranslate | simulation/src/franka_kinematics.py:37-45 | at theta = 0 the flange, gripper and j1 transforms are pure translations along z by 0.107, 0.1034 and 0.333 |
| FrankaKinematics.LinkRotationOrthonormal | simulation/src/franka_kinematics.py:77-82 | given sin² + cos² = 1, the rotation block of every link transform is orthonormal |
| FrankaKinematics.Link | simulation/src/franka_kinematics.py:100 | for 1 <= k <= 7, the lookup of joint k's transform succeeds with this matrix |
| FrankaKinematics.LinkOffset | simulation/src/franka_kinematics.py:77-82 | the translation of joint k's transform is (a, -d sin alp, d cos alp) from row k of the table |
| FrankaKinematics.LinkChain | simulation/src/franka_kinematics.py:97-100 | the product of the first n link transforms, taken left to right from the identity, is homogeneous |
| FrankaKinematics.Fk | simulation/src/franka_kinematics.py:84-105 | succeeds if and only if at most seven angles are given; on success the result equals the left-to-right product of links j1..jn; no angles give the identity; a longer input fails on the missing `j8` |
| FrankaKinematics.FkAppend | simulation/src/franka_kinematics.py:98-100 | appending an angle multiplies the chain on the right by the next joint's link transform |
| FrankaKinematics.FkTranslationStep | simulation/src/franka_kinematics.py:98-100 | after one more joint, the translation is the new link's closed-form offset turned by the chain's rotation so far, plus the chain's translation so far |
| FrankaKinematics.FkRotationOrthonormal | simulation/src/franka_kinematics.py:98-100 | given sin² + cos² = 1, the rotation block of the chain is orthonormal for every input of up to seven angles |
| FrankaKinematics.IkObjective | simulation/src/franka_kinematics.py:108-109 | the solver's objective is non-negative, and it is zero if and only if the chain reaches the target exactly |
| FrankaKinematics.Ik | simulation/src/franka_kinematics.py:107-114 | succeeds if and only if the optimiser reports success, and then returns the optimiser's point; otherwise fails with the inverse-kinematics error |
| Pinhole.FocalScale | simulation/src/camera.py:15 | `ax` is the reciprocal of 2 tan(angle · pi / 360); it is non-zero, and positive exactly when that tangent is |
| Pinhole.IndexOk | simulation/src/camera.py:21 | numpy's acceptance of an index along one axis, -n <= i < n; no contract of its own, `Uv2Xyz` uses it for its success condition |
| Pinhole.Resolve | simulation/src/camera.py:21 | an accepted numpy index resolves to a position inside the axis: non-negative indices are kept, negative ones count from the end |
| Pinhole.Camera.constructor | simulation/src/camera.py:15-18 | `ax` is the focal scale of the angle, `ay = ax`, `u0` is half the width and `v0` half the height |
| Pinhole.Camera.Unproject | simulation/src/camera.py:22 | the offsets (X, Y) satisfy ax · X = Z (u - u0) and ay · Y = Z (v - v0) |
| Pinhole.Camera.Project | simulation/src/camera.py:11-14 | the pixel the intrinsic matrix maps a point to satisfies z (u - u0) = ax · x and z (v - v0) = ay · y |
| Pinhole.Camera.Uv2Xyz | simulation/src/camera.py:20-22 | succeeds if and only if both indices are accepted by numpy for the image's shape (v by rows, u by columns), and fails with an index error otherwise; on success the result is the unprojection of the sample at row v, column u |
| Pinhole.Camera.PrincipalPointMapsToOrigin | simulation/src/camera.py:17-22 | the principal point unprojects to (0, 0) at every depth |
| Pinhole.Camera.DepthLinearity | simulation/src/camera.py:22 | scaling the depth by k scales both offsets by k, and depth 0 gives (0, 0) |
| Pinhole.Camera.SignFollowsOffset | simulation/src/camera.py:15-22 | with ax > 0 and Z > 0, X is positive (resp. negative) if and only if u > u0 (resp. u < u0), and likewise Y with v |
| Pinhole.Camera.ProjectUnproject | simulation/src/camera.py:11-22 | at non-zero depth, projecting an unprojected pixel gives that pixel back |
| Pinhole.Camera.UnprojectProject | simulation/src/camera.py:11-22 | at non-zero depth, unprojecting the pixel a point projects to gives the point's offsets back |
| Pinhole.Camera.OffsetClosedForm | simulation/src/camera.py:15-22 | for a camera whose `ax` satisfies 2 tan(angle · pi / 360) · ax = 1, as the constructor's `ax` does by `FocalScale`, X = 2 Z (u - u0) tan(angle · pi / 360) and Y = 2 Z (v - v0) tan(angle · pi / 360) |
| Pinhole.Camera.Uv2XyzRoundTrip | simulation/src/camera.py:20-22 | reading any pixel numpy accepts (negative indices included) at non-zero depth and projecting the result gives back the indices as given |

## Left out

- Floating-point rounding: all arithmetic is over exact reals.
- The concrete values of sin, cos, tan and pi: they stay uninterpreted. What is assumed about them is sin 0 = 0 and cos 0 = 1 (`UntwistedSegmentsTranslate`), sin² + cos² = 1 (`LinkRotationOrthonormal`, `FkRotationOrthonormal`), 3.14 < pi < 3.15 (`HomeJointWithinBounds`) and a non-zero tangent of the camera's half angle (`FocalScale`, the `Camera` constructor), each only as a precondition of the members named.
- The `scipy.optimize.minimize` L-BFGS-B search inside `ik`: it is a foreign numerical optimiser. It is represented by the report it returns, `OptimizerReport(success, x)`. Its convergence, its use of the joint bounds and its iteration cap are not modelled.
- IkObjective: is the squared Frobenius norm, without the square root that `np.linalg.norm` takes. The square root has no exact counterpart here; it is monotone and zero only at zero, so the zero set is the same.
- Matrices other than 4x4: numpy's `@` and `np.dot` accept any compatible shapes. The model only ever multiplies 4x4 matrices, which is all the code does.
- Pinhole.Camera.constructor: requires the tangent of the half angle to be non-zero. For a zero tangent numpy would give an infinite `ax`, which has no counterpart among the reals.
- The resolution is not tied to the shape of the depth image given to `uv2XYZ`, because the code does not tie them either.
- The pyrep `VisionSensor` base class and its calls (`super().__init__('camera')`, `set_explicit_handling`, `handle_explicitly`, `get_perspective_angle`, `get_resolution`): this is simulator I/O. The angle and the resolution are constructor parameters instead.
- The `IKError` and `ConfigurationError` imports from pyrep: they are replaced by the `KinematicsError` datatype.
- The `__main__` timing benchmark with `time.time()` and `print`: it is I/O and timing only.
- The flange and gripper segments in the chain: their application is commented out in `fk` (`simulation/src/franka_kinematics.py:102-104`), so `Fk` never applies them. Their table rows are still modelled, and `UntwistedSegmentsTranslate` describes their transforms.
