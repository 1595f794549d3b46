# jamtracer in Dafny

jamtracer is a small ray tracer. It is built from the following parts:

- Vectors and flat-array matrices.
- A transform that chains rotation, scaling and translation matrices and keeps their inverse.
- Rays.
- Two shapes: a unit sphere and a unit cube, both intersected in object space.
- A scene that stores shapes and lights.
- Point and directional lights with their shadow tests.
- Three materials: diffuse, reflective and sky.
- Colour and gradient pigments.
- Colours with ARGB packing.
- A perspective camera.
- The raytracer's pixel schedule.
- A small event source.

This project restates those parts in Dafny and proves what the code promises about them.

The model works as follows:

- A Java `double` is a Dafny `real`.
- `sqrt`, `sin`, `cos`, `atan2` and `asin` are fields of a `Libm` value. Every operation that needs them takes that value as a parameter.
- The laws those functions obey are stated as hypotheses (`SqrtLaw`, `TrigLaws`), never assumed.
- Objects whose fields the code updates in place are classes:
  - `Transform` and `TransformUpdater`;
  - the two shapes and the scene;
  - the lights, the materials and the pigments;
  - the camera, the raytracer and the event source.
- Immutable values are datatypes: `Vector`, `Matrix`, `Color`, `Ray`, `RaycastResult` and `RayContext`.
- The Java interfaces (`Shape`, `Light`, `Material`, `Pigment`) become closed datatypes. They have one case per implementing class, and each interface method dispatches to the class.

The modules follow the source packages:

| file | module | models |
|---|---|---|
| `natives.dfy` | `Natives` | `Math`: trigonometry and `sqrt` as parameters, `toRadians`, `signum`, truncating `%`, IEEE division by zero as an extended real |
| `math_utils.dfy` | `MathUtils` | `MathUtils` |
| `vector.dfy`, `sums.dfy` | `Vectors`, `Sums` | `Vector`, its iterator, and the sums behind `dot` |
| `matrix.dfy` | `Matrices` | `Matrix`, including its array-filling factories and the triple-loop `multiply` |
| `colors.dfy` | `Colors` | `Color` and `ColorUtils` |
| `ray.dfy` | `Rays` | `Ray` and `RaycastResult` |
| `transform.dfy` | `Transforms` | `Transform` and `Transform.TransformUpdater` |
| `shapes.dfy` | `Shapes` | `SphereShape`, `CubeShape` and the `Shape` interface |
| `lights.dfy` | `Lights` | `PointLight`, `DirectionalLight` and the `Light` interface |
| `pigments.dfy` | `Pigments` | `ColorPigment`, `GradientPigment` and the `Pigment` interface |
| `camera.dfy` | `Cameras` | `PerspectiveCamera` |
| `pixels.dfy` | `Pixels` | the pixel order of `Raytracer.pixelStream` |
| `rendering.dfy` | `Rendering` | `Scene`, `SimpleScene`, `RayContext`, the three materials and `Raytracer` |
| `events.dfy` | `Events` | `EventSource` |

`Matrix.get(row, column)` reads `data[column * rows + row]`. The class comment calls the layout row-major, but this is column-major.

- `Matrices.View` gives the rows of a matrix in that reading.
- `Matrices.Product` and `Matrices.Transform` are defined in that reading and are the specification of `multiply` and `transform`.
- Array elements are related to rows and columns in one place, `FromGrid` and `LaidOut`, and the factories and `multiply` are proved against it.

Several names the source calls are missing from this revision of the source: `Vector.distance`, `Vector.reflect`, `MathUtils.fuzzyEquals`, `Color.add`, `Color.multiply`, `Color.mix`, `Color.GRAY`, `Material.DEFAULT_SCENE_MATERIAL`, `Matrix.rotateAroundX`, `Matrix.rotateAroundY` and `Matrix.rotateAroundZ`. `RaycastResult` also lacks the `distance` component that `CubeShape` and `PointLight` read. The model defines each of them in the most direct way:

- `Vectors.Distance` is the length of the difference.
- `Vectors.Reflect` is `d - 2 (d . n) n`.
- `IsNormalized` uses `MathUtils.compare` with the default tolerance.
- `Colors.Add` and `Colors.Multiply` work channel by channel. `Colors.Mix` interpolates linearly. `GRAY` is (0.5, 0.5, 0.5, 1).
- The default scene material is a red `DiffuseMaterial`.
- The rotations are the usual plane rotations by the `Libm` cosine and sine.
- `RaycastResult` carries a `distance`.

## Model

| member | source | states |
|---|---|---|
| Natives.ToRadians | src/main/java/com/github/elementbound/jamtracer/raytracing/Transform.java:136-138 | `Math.toRadians` keeps the sign of the angle and maps only 0 to 0 |
| Natives.Signum | src/main/java/com/github/elementbound/jamtracer/raytracing/shape/SphereShape.java:52 | `Math.signum` is -1, 0 or 1 exactly as the argument is negative, zero or positive |
| Natives.Max | src/main/java/com/github/elementbound/jamtracer/raytracing/shape/SphereShape.java:53 | `Math.max` is an upper bound equal to one argument |
| Natives.Min | src/main/java/com/github/elementbound/jamtracer/raytracing/shape/SphereShape.java:55 | `Math.min` is a lower bound equal to one argument |
| Natives.Abs | src/main/java/com/github/elementbound/jamtracer/raytracing/shape/CubeShape.java:50 | `Math.abs` is non-negative and equal to the argument or its negation |
| Natives.Truncate | src/main/java/com/github/elementbound/jamtracer/raytracing/Transform.java:271-275 | the integer part towards zero: below the argument in magnitude by less than one, with its sign |
| Natives.RemainderProperties | src/main/java/com/github/elementbound/jamtracer/raytracing/Transform.java:271-275 | Java's `a % b` for positive `b`: magnitude below `b`, sign of `a`, and `a` minus it is a multiple of `b` |
| Natives.Divide | src/main/java/com/github/elementbound/jamtracer/raytracing/shape/CubeShape.java:38-39 | IEEE division: the quotient for a non-zero divisor, an infinity for a non-zero dividend over zero, NaN exactly for 0/0 |
| Natives.ExtMax | src/main/java/com/github/elementbound/jamtracer/raytracing/shape/CubeShape.java:42 | `Math.max` on doubles with infinities: NaN exactly when an argument is NaN, else the larger argument |
| Natives.ExtMin | src/main/java/com/github/elementbound/jamtracer/raytracing/shape/CubeShape.java:41 | `Math.min` on doubles with infinities: NaN exactly when an argument is NaN, else the smaller argument |
| Natives.ExtMul | src/main/java/com/github/elementbound/jamtracer/raytracing/pigment/GradientPigment.java:64 | `*` on doubles: NaN exactly when an argument is NaN or zero meets an infinity, the real product for finite arguments |
| Natives.ExtAdd | src/main/java/com/github/elementbound/jamtracer/core/Vector.java:244-246 | `+` on doubles: NaN exactly when an argument is NaN or opposite infinities meet, the real sum for finite arguments |
| MathUtils.Saturate | src/main/java/com/github/elementbound/jamtracer/core/MathUtils.java:16-18 | the clamp to [0,1]: in range, the identity inside it, 0 below and 1 above |
| MathUtils.SaturateIdempotent | src/main/java/com/github/elementbound/jamtracer/core/MathUtils.java:16-18 | clamping twice is clamping once |
| MathUtils.CompareExactly | src/main/java/com/github/elementbound/jamtracer/core/MathUtils.java:28-30 | `compare(a, b, eps)` holds exactly when b is within eps of a, is symmetric, and holds for a == a whenever eps >= 0 |
| Vectors.Vec2 | src/main/java/com/github/elementbound/jamtracer/core/Vector.java:37-40 | the two-component constructor keeps its arguments in order |
| Vectors.Vec3 | src/main/java/com/github/elementbound/jamtracer/core/Vector.java:49-52 | the three-component constructor keeps its arguments in order |
| Vectors.Vec4 | src/main/java/com/github/elementbound/jamtracer/core/Vector.java:62-65 | the four-component constructor keeps its arguments in order |
| Vectors.FromArray | src/main/java/com/github/elementbound/jamtracer/core/Vector.java:90-92 | `fromArray` copies the array's contents as they are at the call |
| Vectors.Get | src/main/java/com/github/elementbound/jamtracer/core/Vector.java:165-169 | `get(i)` needs an index below the dimension count and returns a component |
| Vectors.Map | src/main/java/com/github/elementbound/jamtracer/core/Vector.java:357-359 | `map` keeps the dimension count |
| Vectors.BinaryPiecewise | src/main/java/com/github/elementbound/jamtracer/core/Vector.java:301-308 | the piecewise operation of two vectors of equal dimension keeps the dimension |
| Vectors.Add | src/main/java/com/github/elementbound/jamtracer/core/Vector.java:101-103 | `add` requires equal dimensions and keeps them |
| Vectors.Subtract | src/main/java/com/github/elementbound/jamtracer/core/Vector.java:112-114 | `subtract` requires equal dimensions and keeps them |
| Vectors.Scale | src/main/java/com/github/elementbound/jamtracer/core/Vector.java:123-125 | `scale` keeps the dimension count |
| Vectors.Multiply | src/main/java/com/github/elementbound/jamtracer/core/Vector.java:134-136 | `multiply` requires equal dimensions and keeps them |
| Vectors.Divide | src/main/java/com/github/elementbound/jamtracer/core/Vector.java:145-147 | `divide` requires equal dimensions and a divisor without zero components, and keeps the dimension |
| Vectors.Reciprocal | src/main/java/com/github/elementbound/jamtracer/core/Vector.java:154-156 | `reciprocal` has no zero component when its argument has none |
| Vectors.SquaredLength | src/main/java/com/github/elementbound/jamtracer/core/Vector.java:289-293 | the sum of squares is non-negative |
| Vectors.Cross | src/main/java/com/github/elementbound/jamtracer/core/Vector.java:258-267 | `cross` of two 3D vectors is 3D |
| Vectors.Normalized | src/main/java/com/github/elementbound/jamtracer/core/Vector.java:283-287 | `normalized` keeps the dimension count |
| Vectors.AsHeterogeneous | src/main/java/com/github/elementbound/jamtracer/core/Vector.java:194-202 | `asHeterogeneous` is 4D with w = 1 |
| Vectors.AsHeterogeneousNormal | src/main/java/com/github/elementbound/jamtracer/core/Vector.java:209-217 | `asHeterogeneousNormal` is 4D with w = 0 |
| Vectors.AsHomogeneous | src/main/java/com/github/elementbound/jamtracer/core/Vector.java:224-231 | `asHomogeneous` is 3D |
| Vectors.AddSubtractInverse | src/main/java/com/github/elementbound/jamtracer/core/Vector.java:101-114 | adding and subtracting the same vector undo each other |
| Vectors.AddCommutative | src/main/java/com/github/elementbound/jamtracer/core/Vector.java:101-103 | `add` is commutative |
| Vectors.MultiplyDivideInverse | src/main/java/com/github/elementbound/jamtracer/core/Vector.java:134-147 | multiplying and dividing by a vector without zero components undo each other |
| Vectors.ReciprocalInvolutive | src/main/java/com/github/elementbound/jamtracer/core/Vector.java:154-156 | the reciprocal of the reciprocal is the vector, and a vector times its reciprocal is all ones |
| Vectors.ScaleCompose | src/main/java/com/github/elementbound/jamtracer/core/Vector.java:123-125 | scaling by s then t is scaling by s t; scaling by 1 changes nothing |
| Vectors.DotSymmetric | src/main/java/com/github/elementbound/jamtracer/core/Vector.java:240-247 | `dot` is symmetric |
| Vectors.DotScale | src/main/java/com/github/elementbound/jamtracer/core/Vector.java:240-247 | `dot` is linear in the scale of either operand |
| Vectors.DotAdd | src/main/java/com/github/elementbound/jamtracer/core/Vector.java:240-247 | `dot` distributes over `add` |
| Vectors.DotSubtract | src/main/java/com/github/elementbound/jamtracer/core/Vector.java:240-247 | `dot` distributes over `subtract` |
| Vectors.SquaredLengthZero | src/main/java/com/github/elementbound/jamtracer/core/Vector.java:289-293 | the squared length is zero exactly when every component is zero |
| Vectors.Dot3 | src/main/java/com/github/elementbound/jamtracer/core/Vector.java:240-247 | the dot product of 3D vectors written out |
| Vectors.LengthNonNegative | src/main/java/com/github/elementbound/jamtracer/core/Vector.java:289-293 | the length is non-negative and squares to the squared length |
| Vectors.LengthOfScaled | src/main/java/com/github/elementbound/jamtracer/core/Vector.java:123-125 | the length of a scaled vector is the absolute scalar times the length |
| Vectors.NormalizedIsNormalized | src/main/java/com/github/elementbound/jamtracer/core/Vector.java:274-287 | `normalized` gives a vector that `isNormalized` accepts, of length exactly 1 unless it returned the input, and not of length 0 |
| Vectors.NormalizedIdempotent | src/main/java/com/github/elementbound/jamtracer/core/Vector.java:283-287 | normalizing twice is normalizing once |
| Vectors.NormalizedSameDirection | src/main/java/com/github/elementbound/jamtracer/core/Vector.java:283-287 | `normalized` keeps the direction: componentwise proportional and with a positive dot product with the input |
| Vectors.DistanceProperties | src/main/java/com/github/elementbound/jamtracer/raytracing/light/PointLight.java:64 | the distance used by the lights and shapes is non-negative, symmetric and zero from a point to itself |
| Vectors.CrossPerpendicular | src/main/java/com/github/elementbound/jamtracer/core/Vector.java:258-267 | the cross product is perpendicular to both operands |
| Vectors.CrossAntiCommutative | src/main/java/com/github/elementbound/jamtracer/core/Vector.java:258-267 | swapping the operands negates the cross product |
| Vectors.RightHandRule | src/main/java/com/github/elementbound/jamtracer/core/Vector.java:23-29 | RIGHT x FORWARD = UP, FORWARD x UP = RIGHT, UP x RIGHT = FORWARD, and the same with the negated axes |
| Vectors.DotExamples | src/test/java/com/github/elementbound/jamtracer/core/VectorTest.java:72-79 | the dot products the tests list, including (1,1,1) . (-1,1,-1) = -1 |
| Vectors.LengthExamples | src/test/java/com/github/elementbound/jamtracer/core/VectorTest.java:95-101 | the lengths the tests list; (2,2,0,0) has squared length 8 |
| Vectors.ReciprocalExample | src/test/java/com/github/elementbound/jamtracer/core/VectorTest.java:45-56 | the reciprocal of (1,2,4) is (1,0.5,0.25) |
| Vectors.HeterogeneousRoundTrip | src/main/java/com/github/elementbound/jamtracer/core/Vector.java:194-231 | lifting a 3D vector to 4D and dropping w gives it back; the lift keeps the first three components |
| Vectors.ReflectInvolutive | src/test/java/com/github/elementbound/jamtracer/core/VectorTest.java:58-70 | reflecting twice about a unit normal gives the vector back and negates its normal component |
| Vectors.ReflectKeepsLength | src/test/java/com/github/elementbound/jamtracer/core/VectorTest.java:58-70 | reflection about a unit normal keeps the length |
| Vectors.ReflectExample | src/test/java/com/github/elementbound/jamtracer/core/VectorTest.java:58-70 | the normalized (1,-1) reflected about (0,1) is the normalized (1,1) |
| Vectors.IterateAsWrittenDropsLast | src/main/java/com/github/elementbound/jamtracer/core/Vector.java:370-372 | as written, `hasNext` (`index + 1 < dimensions`) makes iteration stop before the last component |
| Vectors.IterateAsWrittenExample | src/main/java/com/github/elementbound/jamtracer/core/Vector.java:370-377 | as written, iterating (1,2,3) yields 1, 2 and iterating a 1D vector yields nothing |
| Vectors.VectorIterator.constructor | src/main/java/com/github/elementbound/jamtracer/core/Vector.java:365-368 | a new iterator is at index 0 of its vector |
| Vectors.VectorIterator.Next | src/main/java/com/github/elementbound/jamtracer/core/Vector.java:375-377 | `next` returns the component at the index and advances it by one |
| Vectors.VectorIterator.Drain | src/main/java/com/github/elementbound/jamtracer/core/Vector.java:370-377 | iterating until `hasNext` fails yields every remaining component in order |
| Vectors.Components | src/main/java/com/github/elementbound/jamtracer/core/Vector.java:340-342 | iterating a fresh iterator with the corrected `hasNext` (Findings row 4) yields exactly the components of the vector |
| Matrices.Flat | src/main/java/com/github/elementbound/jamtracer/core/Matrix.java:30-35 | `get`'s index `column * rows + row` is in range and recovers the column by `/ rows` and the row by `% rows` |
| Matrices.FlatIndexInverse | src/main/java/com/github/elementbound/jamtracer/core/Matrix.java:30-35 | every array index is `column * rows + row` for the column `k / rows` and the row `k % rows` |
| Matrices.DataAt | src/main/java/com/github/elementbound/jamtracer/core/Matrix.java:30-35 | every array slot is the `get` of its row and column |
| Matrices.View | src/main/java/com/github/elementbound/jamtracer/core/Matrix.java:30-35 | the rows of a matrix in the `get` reading |
| Matrices.ViewFromGrid | src/main/java/com/github/elementbound/jamtracer/core/Matrix.java:30-35 | laying rows out column by column and reading them back gives the same rows |
| Matrices.FromGridView | src/main/java/com/github/elementbound/jamtracer/core/Matrix.java:30-35 | reading a matrix's rows and laying them out again gives the same matrix |
| Matrices.GetFromGrid | src/main/java/com/github/elementbound/jamtracer/core/Matrix.java:30-35 | `get` of a laid-out matrix is the element of the rows it was laid out from |
| Matrices.IdentityMatrix | src/main/java/com/github/elementbound/jamtracer/core/Matrix.java:95-97 | `identity(n)` is n x n |
| Matrices.TranslationMatrix | src/main/java/com/github/elementbound/jamtracer/core/Matrix.java:108-119 | `translate(v)` is (d+1) x (d+1) |
| Matrices.ScalingMatrix | src/main/java/com/github/elementbound/jamtracer/core/Matrix.java:129-141 | `scale(Vector)` is (d+1) x (d+1) |
| Matrices.UniformScalingMatrix | src/main/java/com/github/elementbound/jamtracer/core/Matrix.java:154-167 | `scale(double, int)` is (d+1) x (d+1) |
| Matrices.RotationX | src/main/java/com/github/elementbound/jamtracer/raytracing/Transform.java:136 | the missing `rotateAroundX`, a 4 x 4 rotation of the y-z plane |
| Matrices.RotationY | src/main/java/com/github/elementbound/jamtracer/raytracing/Transform.java:137 | the missing `rotateAroundY`, a 4 x 4 rotation of the z-x plane |
| Matrices.RotationZ | src/main/java/com/github/elementbound/jamtracer/raytracing/Transform.java:138 | the missing `rotateAroundZ`, a 4 x 4 rotation of the x-y plane |
| Matrices.Product | src/main/java/com/github/elementbound/jamtracer/core/Matrix.java:47-66 | the product in the `get` reading, with the operands' outer dimensions |
| Matrices.GetProduct | src/main/java/com/github/elementbound/jamtracer/core/Matrix.java:47-66 | element (r, c) of the product is row r of the left operand against column c of the right |
| Matrices.Transform | src/main/java/com/github/elementbound/jamtracer/core/Matrix.java:76-86 | `transform` keeps the dimension of the vector |
| Matrices.ProductIdentityLeft | src/main/java/com/github/elementbound/jamtracer/core/Matrix.java:95-97 | the identity is a left unit of the product |
| Matrices.ProductIdentityRight | src/test/java/com/github/elementbound/jamtracer/core/MatrixTest.java:10-21 | the identity is a right unit of the product |
| Matrices.ProductAssociative | src/main/java/com/github/elementbound/jamtracer/core/Matrix.java:47-66 | the product is associative |
| Matrices.TransformIdentity | src/test/java/com/github/elementbound/jamtracer/core/MatrixTest.java:24-35 | `identity(n).transform(v) == v` |
| Matrices.TransformProduct | src/main/java/com/github/elementbound/jamtracer/core/Matrix.java:76-86 | transforming by `a.multiply(b)` is transforming by `a` and then by `b` |
| Matrices.TransformFromGrid | src/main/java/com/github/elementbound/jamtracer/core/Matrix.java:76-86 | `transform` computes, per component i, the sum over j of `data[i * rows + j] * v[j]` |
| Matrices.TransformTranslation | src/test/java/com/github/elementbound/jamtracer/core/MatrixTest.java:90-102 | a translation adds `w` times the offset to the first components and keeps w |
| Matrices.TransformScaling | src/test/java/com/github/elementbound/jamtracer/core/MatrixTest.java:55-87 | a scaling multiplies each leading component by its scalar and keeps w |
| Matrices.UniformScalingIsScaling | src/main/java/com/github/elementbound/jamtracer/core/Matrix.java:154-167 | `scale(s, d)` equals `scale` by the vector of d copies of s |
| Matrices.TransformRotation | src/main/java/com/github/elementbound/jamtracer/raytracing/Transform.java:136-138 | a plane rotation mixes the two plane components by cosine and sine and keeps the others |
| Matrices.RotationInverse | src/main/java/com/github/elementbound/jamtracer/raytracing/Transform.java:142-144 | the rotation by the opposite angle undoes a rotation from the left |
| Matrices.RotationInverseRight | src/main/java/com/github/elementbound/jamtracer/raytracing/Transform.java:142-144 | the rotation by the opposite angle undoes a rotation from the right |
| Matrices.ScalingInverse | src/main/java/com/github/elementbound/jamtracer/raytracing/Transform.java:141 | scaling by the reciprocal scalars undoes a scaling |
| Matrices.TranslationInverse | src/main/java/com/github/elementbound/jamtracer/raytracing/Transform.java:140 | translating by the negated offset undoes a translation |
| Matrices.RowMajorIsTranspose | src/main/java/com/github/elementbound/jamtracer/core/Matrix.java:9 | reading the array row-major, as the class comment says, gives the transpose of `get` |
| Matrices.RowMajorLane | src/main/java/com/github/elementbound/jamtracer/core/Matrix.java:76-86 | the row `transform` reads is column i in the `get` reading |
| Matrices.IdentityData | src/main/java/com/github/elementbound/jamtracer/core/Matrix.java:187-197 | the array of `identityData` is laid out as the identity, written one diagonal slot at a time |
| Matrices.Identity | src/main/java/com/github/elementbound/jamtracer/core/Matrix.java:95-97 | `identity(n)` is the identity matrix |
| Matrices.Translate | src/main/java/com/github/elementbound/jamtracer/core/Matrix.java:108-119 | the offsets written at `(i+1) * size - 1` make `translate(v)` the translation matrix |
| Matrices.TranslationPoint | src/main/java/com/github/elementbound/jamtracer/core/Matrix.java:108-119 | the value the loops of `translate` leave in array slot k is the translation matrix's element at row `k % size`, column `k / size` |
| Matrices.Scale | src/main/java/com/github/elementbound/jamtracer/core/Matrix.java:129-141 | `scale(Vector)` is the diagonal of the scalars and then 1 |
| Matrices.ScaleUniformly | src/main/java/com/github/elementbound/jamtracer/core/Matrix.java:154-167 | `scale(s, d)` is the diagonal of d copies of s and then 1 |
| Matrices.FromArray | src/main/java/com/github/elementbound/jamtracer/core/Matrix.java:181-185 | `fromArray` requires `rows * columns == data.length` and keeps a copy of the contents |
| Matrices.AccumulateElement | src/main/java/com/github/elementbound/jamtracer/core/Matrix.java:55-60 | the innermost loop sums row r of `this` against column c of `that` into one slot and leaves the others |
| Matrices.FillRow | src/main/java/com/github/elementbound/jamtracer/core/Matrix.java:54-61 | the middle loop fills a row's slots of the result with their product elements |
| Matrices.Multiply | src/main/java/com/github/elementbound/jamtracer/core/Matrix.java:47-66 | the triple loop computes the product, for any operands whose inner dimensions agree |
| Matrices.MultiplyAsWrittenOutOfBounds | src/main/java/com/github/elementbound/jamtracer/core/Matrix.java:51-60 | as written, a 1 x 2 times a 2 x 1 passes the size check, yet the step at row 0, column 1 reads `that.get(0, 1)`, index 2 of a 2-element array |
| Matrices.MultiplyAsWrittenSquare | src/main/java/com/github/elementbound/jamtracer/core/Matrix.java:51-53 | as written, square operands stay in bounds and give the result shape of the product |
| Colors.Rgb | src/main/java/com/github/elementbound/jamtracer/core/Color.java:47-49 | the RGB constructor stores the three channels and alpha 1 |
| Colors.Channels | src/main/java/com/github/elementbound/jamtracer/core/Color.java:68-97 | the four getters read four channels |
| Colors.FromArray | src/main/java/com/github/elementbound/jamtracer/core/Color.java:31-37 | the array constructor fails exactly when the array does not have four elements, and otherwise copies it |
| Colors.Lerp | src/main/java/com/github/elementbound/jamtracer/raytracing/pigment/GradientPigment.java:65 | linear interpolation is its first end at 0 and its second at 1 |
| Colors.Mix | src/main/java/com/github/elementbound/jamtracer/raytracing/pigment/GradientPigment.java:65 | the missing `mix` is the first colour at 0 and the second at 1 |
| Colors.AddCommutative | src/main/java/com/github/elementbound/jamtracer/raytracing/material/DiffuseMaterial.java:56 | the missing `add` is commutative |
| Colors.AddAssociative | src/main/java/com/github/elementbound/jamtracer/raytracing/material/DiffuseMaterial.java:56 | the missing `add` is associative |
| Colors.AddBlack | src/main/java/com/github/elementbound/jamtracer/raytracing/material/DiffuseMaterial.java:39 | adding the zero colour changes nothing; adding BLACK to a colour raises its alpha by one |
| Colors.MultiplyWhite | src/main/java/com/github/elementbound/jamtracer/raytracing/material/DiffuseMaterial.java:59 | multiplying by WHITE changes nothing; multiplying by BLACK keeps only alpha |
| Colors.LerpBetween | src/main/java/com/github/elementbound/jamtracer/raytracing/pigment/GradientPigment.java:65 | for a factor in [0,1] the interpolation lies between its ends |
| Colors.MixBetween | src/main/java/com/github/elementbound/jamtracer/raytracing/pigment/GradientPigment.java:65 | for a factor in [0,1] every channel of the mix lies between the two colours' channels |
| Colors.MixHalfway | src/test/java/com/github/elementbound/jamtracer/raytracing/pigment/GradientPigmentTest.java:29-37 | halfway between BLACK and WHITE is GRAY, in both directions |
| Colors.SaturateValue | src/main/java/com/github/elementbound/jamtracer/core/ColorUtils.java:48-50 | `saturate(double)` is in [0,1] and the identity inside it |
| Colors.Saturate | src/main/java/com/github/elementbound/jamtracer/core/ColorUtils.java:59-66 | `saturate(Color)` puts all four channels, alpha included, in [0,1] and keeps those already there |
| Colors.SaturateIdempotent | src/main/java/com/github/elementbound/jamtracer/core/ColorUtils.java:59-66 | saturating twice is saturating once |
| Colors.ChannelByte | src/main/java/com/github/elementbound/jamtracer/core/ColorUtils.java:14-23 | a channel's byte is in 0..255, 255 at or above 1 and 0 at or below 0 |
| Colors.PackArgb | src/main/java/com/github/elementbound/jamtracer/core/ColorUtils.java:18-22 | `a << 24 | r << 16 | g << 8 | b` of four bytes fits in 32 unsigned bits |
| Colors.ToInt32 | src/main/java/com/github/elementbound/jamtracer/core/ColorUtils.java:14-23 | the packed value as a Java `int`: in range and equal modulo 2^32 |
| Colors.AsRGB | src/main/java/com/github/elementbound/jamtracer/core/ColorUtils.java:14-23 | `asRGB` is a Java `int` |
| Colors.FromRGB | src/main/java/com/github/elementbound/jamtracer/core/ColorUtils.java:32-39 | `fromRGB` gives channels in [0,1] and alpha 1 |
| Colors.UnpackArgb | src/main/java/com/github/elementbound/jamtracer/core/ColorUtils.java:32-39 | the bytes `fromRGB` reads back are the ones `asRGB` packed, for alpha and every channel |
| Colors.FromRGBAsRGB | src/main/java/com/github/elementbound/jamtracer/core/ColorUtils.java:14-39 | `fromRGB(asRGB(c))` is the opaque colour of c's channel bytes over 255 |
| Colors.FromRGBAsRGBExact | src/main/java/com/github/elementbound/jamtracer/core/ColorUtils.java:14-39 | an opaque colour whose channels are 0 or 1 survives the round trip exactly |
| Colors.AsRGBExamples | src/test/java/com/github/elementbound/jamtracer/core/ColorUtilsTest.java:33-53 | WHITE packs to 0xFFFFFFFF and RED to 0xFFFF0000; over-range channels clamp to 255 and negative ones, alpha included, to 0 |
| Rays.NewRay | src/main/java/com/github/elementbound/jamtracer/raytracing/Ray.java:19-22 | the constructor keeps the origin and the dimension of the direction |
| Rays.NewRayDirection | src/main/java/com/github/elementbound/jamtracer/raytracing/Ray.java:19-22 | the stored direction is normalized, has length, points the same way as the given one, and is the given one when that is already normalized |
| Rays.GetPoint | src/main/java/com/github/elementbound/jamtracer/raytracing/Ray.java:50-52 | `getPoint` keeps the dimension of the origin |
| Rays.GetPointDistance | src/main/java/com/github/elementbound/jamtracer/raytracing/Ray.java:50-52 | `getPoint(t)` lies at distance abs(t) times the direction's length from the origin; `getPoint(0)` is the origin |
| Rays.Lookat | src/main/java/com/github/elementbound/jamtracer/raytracing/Ray.java:62-67 | `lookat(from, at)` starts at `from` |
| Rays.LookatReaches | src/main/java/com/github/elementbound/jamtracer/raytracing/Ray.java:62-67 | `lookat(from, at)` reaches `at`, at a positive distance along it |
| Rays.Rescaled | src/main/java/com/github/elementbound/jamtracer/raytracing/Ray.java:62-67 | the normalized direction scaled back by the length (or 1) is the original direction |
| Rays.EqualsIsEquality | src/main/java/com/github/elementbound/jamtracer/raytracing/Ray.java:79-92 | `equals` holds exactly when origins and directions are componentwise equal |
| Transforms.FactorMatrix | src/main/java/com/github/elementbound/jamtracer/raytracing/Transform.java:134-144 | each factory call of `updateMatrices` builds a 4 x 4 matrix |
| Transforms.ChainMatrix | src/main/java/com/github/elementbound/jamtracer/raytracing/Transform.java:146-156 | the product of a chain of factors, left to right, is 4 x 4 |
| Transforms.Inverse | src/main/java/com/github/elementbound/jamtracer/raytracing/Transform.java:140-144 | the inverse factor of `updateMatrices` is a factor of the same kind |
| Transforms.Undo | src/main/java/com/github/elementbound/jamtracer/raytracing/Transform.java:152-156 | the inverse chain is the inverse factors in reverse order |
| Transforms.ForwardFactors | src/main/java/com/github/elementbound/jamtracer/raytracing/Transform.java:146-150 | the forward chain is rotX, rotY, rotZ, scaling, translation; all invertible with a scale that has no zero |
| Transforms.InverseFactorsUndo | src/main/java/com/github/elementbound/jamtracer/raytracing/Transform.java:140-156 | the inverse chain `updateMatrices` builds is exactly the reverse of the inverted forward factors |
| Transforms.ScalingMatrixInverse | src/main/java/com/github/elementbound/jamtracer/raytracing/Transform.java:141 | `scale(ONE.divide(scale))` inverts `scale(scale)` on both sides |
| Transforms.TranslationMatrixInverse | src/main/java/com/github/elementbound/jamtracer/raytracing/Transform.java:140 | `translate(position.scale(-1))` inverts `translate(position)` on both sides |
| Transforms.FactorInverts | src/main/java/com/github/elementbound/jamtracer/raytracing/Transform.java:134-144 | every inverse factory call inverts its forward call, on both sides, under the trigonometric laws |
| Transforms.ChainPrepend | src/main/java/com/github/elementbound/jamtracer/raytracing/Transform.java:146-156 | a chain's matrix is its first factor times the rest |
| Transforms.UndoInverts | src/main/java/com/github/elementbound/jamtracer/raytracing/Transform.java:146-156 | the reversed chain of inverses inverts a chain, on both sides |
| Transforms.ChainRoundTrip | src/test/java/com/github/elementbound/jamtracer/raytracing/TransformTest.java:10-27 | `inverseMatrix.multiply(matrix)` and `matrix.multiply(inverseMatrix)` are both the identity |
| Transforms.UndoTransform | src/main/java/com/github/elementbound/jamtracer/raytracing/Transform.java:123-131 | transforming by a matrix and then by its inverse gives the vector back |
| Transforms.ChainKeepsW | src/main/java/com/github/elementbound/jamtracer/raytracing/Transform.java:146-150 | every transform matrix keeps the w component of a point |
| Transforms.MapPoint | src/main/java/com/github/elementbound/jamtracer/raytracing/Transform.java:107-113 | a point lifted to w = 1, transformed and dropped to 3D |
| Transforms.MapPointRoundTrip | src/main/java/com/github/elementbound/jamtracer/raytracing/Transform.java:106-131 | mapping a point forward and then back gives the point |
| Transforms.MoveRay | src/main/java/com/github/elementbound/jamtracer/raytracing/Transform.java:106-131 | `transformRay` starts at the image of the origin and passes through the image of `getPoint(1)` |
| Transforms.MoveRayRoundTrip | src/main/java/com/github/elementbound/jamtracer/raytracing/Transform.java:106-131 | `inverseTransformRay(transformRay(ray))` starts where the ray started |
| Transforms.BuildFactor | src/main/java/com/github/elementbound/jamtracer/raytracing/Transform.java:134-144 | each factory call in `updateMatrices` gives its factor's matrix |
| Transforms.BuildChain | src/main/java/com/github/elementbound/jamtracer/raytracing/Transform.java:146-156 | multiplying five factors in order gives the chain's matrix |
| Transforms.ForwardChain | src/main/java/com/github/elementbound/jamtracer/raytracing/Transform.java:146-150 | `matrix` is the forward chain |
| Transforms.InverseChain | src/main/java/com/github/elementbound/jamtracer/raytracing/Transform.java:152-156 | `inverseMatrix` is the inverse chain |
| Transforms.BuiltChainsInvert | src/main/java/com/github/elementbound/jamtracer/raytracing/Transform.java:133-157 | the two matrices `updateMatrices` stores invert each other under the trigonometric laws |
| Transforms.WrapRotation | src/main/java/com/github/elementbound/jamtracer/raytracing/Transform.java:271-275 | `done` stores a 3D rotation |
| Transforms.WrapRotationProperties | src/main/java/com/github/elementbound/jamtracer/raytracing/Transform.java:271-275 | each stored angle is Java `r % 360`: magnitude below 360, the sign of r, and r minus it a multiple of 360 |
| Transforms.WrapRotationKeepsSmallAngles | src/main/java/com/github/elementbound/jamtracer/raytracing/Transform.java:271-275 | angles strictly between -360 and 360 are stored unchanged |
| Transforms.Transform.constructor | src/main/java/com/github/elementbound/jamtracer/raytracing/Transform.java:21-28 | the default transform is at ZERO, scale ONE, rotation ZERO, with both matrices the identity |
| Transforms.Transform.Placed | src/main/java/com/github/elementbound/jamtracer/raytracing/Transform.java:37-43 | the three-argument constructor stores its arguments and the two chains, which invert each other |
| Transforms.Transform.UpdateMatrices | src/main/java/com/github/elementbound/jamtracer/raytracing/Transform.java:133-157 | `updateMatrices` stores the forward and inverse chains of the current fields and nothing else |
| Transforms.Transform.Update | src/main/java/com/github/elementbound/jamtracer/raytracing/Transform.java:95-97 | `update` gives a fresh updater holding the current position, scale and rotation; the transform does not change |
| Transforms.Transform.TransformRay | src/main/java/com/github/elementbound/jamtracer/raytracing/Transform.java:106-114 | `transformRay` maps the origin by `matrix` and passes through the image of `getPoint(1)` |
| Transforms.Transform.InverseTransformRay | src/main/java/com/github/elementbound/jamtracer/raytracing/Transform.java:123-131 | `inverseTransformRay` does the same by `inverseMatrix` |
| Transforms.TransformUpdater.constructor | src/main/java/com/github/elementbound/jamtracer/raytracing/Transform.java:168-173 | the updater starts from the values it is given, for the transform it is given |
| Transforms.TransformUpdater.SetPosition | src/main/java/com/github/elementbound/jamtracer/raytracing/Transform.java:182-187 | `setPosition` requires 3D and replaces only the position |
| Transforms.TransformUpdater.SetScale | src/main/java/com/github/elementbound/jamtracer/raytracing/Transform.java:196-201 | `setScale` requires 3D and replaces only the scale |
| Transforms.TransformUpdater.SetRotation | src/main/java/com/github/elementbound/jamtracer/raytracing/Transform.java:210-215 | `setRotation` requires 3D and replaces only the rotation |
| Transforms.TransformUpdater.Translate | src/main/java/com/github/elementbound/jamtracer/raytracing/Transform.java:224-227 | `translate` adds the offset to the position only |
| Transforms.TransformUpdater.ScaleBy | src/main/java/com/github/elementbound/jamtracer/raytracing/Transform.java:236-239 | `scale(Vector)` multiplies the scale componentwise, and nothing else |
| Transforms.TransformUpdater.ScaleUniformly | src/main/java/com/github/elementbound/jamtracer/raytracing/Transform.java:248-251 | `scale(double)` scales the scale uniformly, and nothing else |
| Transforms.TransformUpdater.Rotate | src/main/java/com/github/elementbound/jamtracer/raytracing/Transform.java:260-263 | `rotate` adds to the rotation only |
| Transforms.TransformUpdater.Done | src/main/java/com/github/elementbound/jamtracer/raytracing/Transform.java:268-278 | `done` copies position and scale, stores each rotation angle `% 360`, and recomputes both chains, which invert each other |
| Shapes.SphereQuadratic | src/main/java/com/github/elementbound/jamtracer/raytracing/shape/SphereShape.java:37-41 | the coefficients `a = d . d`, `b = 2 o . d`, `c = o . o - 1` |
| Shapes.SphereQuadraticMeaning | src/main/java/com/github/elementbound/jamtracer/raytracing/shape/SphereShape.java:37-41 | the quadratic at t is the squared distance of `o + t d` from the centre, minus 1 |
| Shapes.NoRealRoot | src/main/java/com/github/elementbound/jamtracer/raytracing/shape/SphereShape.java:43-44 | a negative discriminant means the ray never meets the sphere |
| Shapes.RootsAsWritten | src/main/java/com/github/elementbound/jamtracer/raytracing/shape/SphereShape.java:46-47 | the two roots as written, `-b +- sqrt(disc) / 2 * a`, are ordered t1 >= t2 |
| Shapes.Roots | src/main/java/com/github/elementbound/jamtracer/raytracing/shape/SphereShape.java:46-47 | the quadratic formula's roots are ordered and both are zeros of the quadratic |
| Shapes.OnlyRoots | src/main/java/com/github/elementbound/jamtracer/raytracing/shape/SphereShape.java:46-47 | every zero of the quadratic is one of the two roots |
| Shapes.ChooseRoot | src/main/java/com/github/elementbound/jamtracer/raytracing/shape/SphereShape.java:50-56 | no hit exactly when both roots are negative; otherwise a non-negative root, below every positive root, positive when one is |
| Shapes.SphereHitAsWritten | src/main/java/com/github/elementbound/jamtracer/raytracing/shape/SphereShape.java:37-56 | the parameter the code as written chooses is non-negative |
| Shapes.SphereHit | src/main/java/com/github/elementbound/jamtracer/raytracing/shape/SphereShape.java:37-56 | with the roots of the quadratic formula, the chosen parameter is non-negative and on the unit sphere |
| Shapes.SphereHitNearest | src/main/java/com/github/elementbound/jamtracer/raytracing/shape/SphereShape.java:50-56 | if the ray meets the sphere at a positive parameter, a hit is found at or before it |
| Shapes.SphereHitNone | src/main/java/com/github/elementbound/jamtracer/raytracing/shape/SphereShape.java:43-51 | when no hit is found, no non-negative parameter lies on the sphere |
| Shapes.SphereHitAsWrittenExample | src/main/java/com/github/elementbound/jamtracer/raytracing/shape/SphereShape.java:46-47 | as written, the ray from (0,0,5) along -z hits at t = 9, the point (0,0,-4), 4 units from the centre; the formula gives t = 4 |
| Shapes.UnitPoint | src/main/java/com/github/elementbound/jamtracer/raytracing/shape/SphereShape.java:60 | a point on the unit sphere is its own normalization |
| Shapes.LocalSphereHit | src/main/java/com/github/elementbound/jamtracer/raytracing/shape/SphereShape.java:31-56 | in object space, a hit is at a non-negative parameter on the unit sphere |
| Shapes.NormalToWorld | src/main/java/com/github/elementbound/jamtracer/raytracing/shape/SphereShape.java:65 | the normal lifted with w = 0, transformed and dropped is 3D |
| Shapes.SphereTexcoords | src/main/java/com/github/elementbound/jamtracer/raytracing/shape/SphereShape.java:61-64 | the texcoords are `(pi + atan2(n.y, n.x)) / 2pi` and `(pi/2 + asin(n.z)) / pi` |
| Shapes.SphereShape.constructor | src/main/java/com/github/elementbound/jamtracer/raytracing/shape/SphereShape.java:15-17 | a new sphere has a fresh identity transform |
| Shapes.SphereShape.SetTransform | src/main/java/com/github/elementbound/jamtracer/raytracing/shape/SphereShape.java:25-27 | `setTransform` replaces the transform |
| Shapes.SphereShape.Raycast | src/main/java/com/github/elementbound/jamtracer/raytracing/shape/SphereShape.java:30-70 | a hit exactly when the local ray meets the unit sphere at a non-negative parameter, else NO_HIT; a hit reports this shape, the world point, the normal, the texcoords and the distance from the ray's origin |
| Shapes.Crossings | src/main/java/com/github/elementbound/jamtracer/raytracing/shape/CubeShape.java:38-39 | the two slab crossings on an axis are `(1 - o) / d` and `(-1 - o) / d` for a non-zero d |
| Shapes.EntryIsLatest | src/main/java/com/github/elementbound/jamtracer/raytracing/shape/CubeShape.java:37-43 | after the loop, `tmin` is the largest of the per-axis entries, or negative infinity, and NaN exactly when one entry is |
| Shapes.ExitIsEarliest | src/main/java/com/github/elementbound/jamtracer/raytracing/shape/CubeShape.java:37-43 | after the loop, `tmax` is the smallest of the per-axis exits, or positive infinity, and NaN exactly when one exit is |
| Shapes.Slabs | src/main/java/com/github/elementbound/jamtracer/raytracing/shape/CubeShape.java:34-43 | the slab loop computes the latest entry and the earliest exit over all axes |
| Shapes.InsideSlab | src/main/java/com/github/elementbound/jamtracer/raytracing/shape/CubeShape.java:38-42 | a parameter between an axis's two crossings puts the point inside that slab, also when the direction component is 0 |
| Shapes.SlabHitInside | src/main/java/com/github/elementbound/jamtracer/raytracing/shape/CubeShape.java:45-46 | when the hit test passes, `getPoint(tmin)` lies in the cube [-1,1]^n |
| Shapes.SlabPointInside | src/main/java/com/github/elementbound/jamtracer/raytracing/shape/CubeShape.java:38-43 | a parameter between one axis's entry and exit puts that component in [-1,1] |
| Shapes.ContainedInSlab | src/main/java/com/github/elementbound/jamtracer/raytracing/shape/CubeShape.java:38-42 | conversely, a point inside one axis's slab has its parameter between the two crossings, when neither is NaN |
| Shapes.SlabContainsPoint | src/main/java/com/github/elementbound/jamtracer/raytracing/shape/CubeShape.java:38-43 | a point inside one axis's slab has its parameter between that axis's entry and exit |
| Shapes.SlabsContainPoint | src/main/java/com/github/elementbound/jamtracer/raytracing/shape/CubeShape.java:34-43 | unless `tmin` or `tmax` is NaN, every parameter whose point lies in the cube is between them |
| Shapes.SlabHitIsNearest | src/main/java/com/github/elementbound/jamtracer/raytracing/shape/CubeShape.java:34-46 | for a ray that meets the cube at some t >= 0, the test reports a hit exactly when `tmin >= 0` (a ray starting inside is a miss), and then `tmin` is no later than t: the hit is the nearest point ahead |
| Shapes.Others | src/main/java/com/github/elementbound/jamtracer/raytracing/shape/CubeShape.java:54-60 | the texcoords of a face are the two other components, in order |
| Shapes.Face | src/main/java/com/github/elementbound/jamtracer/raytracing/shape/CubeShape.java:47-61 | the normal chosen for a local point is 3D |
| Shapes.FaceOfDominantAxis | src/main/java/com/github/elementbound/jamtracer/raytracing/shape/CubeShape.java:52-61 | when one axis strictly dominates, the normal is the sign of that component on that axis and 0 elsewhere, and the texcoords are the other two components |
| Shapes.FaceOfTie | src/main/java/com/github/elementbound/jamtracer/raytracing/shape/CubeShape.java:47-48 | when no axis strictly dominates, normal and texcoords stay ZERO |
| Shapes.CubeTexcoords | src/main/java/com/github/elementbound/jamtracer/raytracing/shape/CubeShape.java:64 | `(1 + v) / 2` maps components in [-1,1] into [0,1] |
| Shapes.CubeTexcoordsInvert | src/main/java/com/github/elementbound/jamtracer/raytracing/shape/CubeShape.java:64 | `2 v - 1` undoes the texcoord map |
| Shapes.CubeHitResult | src/main/java/com/github/elementbound/jamtracer/raytracing/shape/CubeShape.java:63-69 | a cube hit reports this shape, the world point, the world normal of the face, the face's texcoords and the distance from the ray's origin |
| Shapes.CubeTexcoordsInRange | src/main/java/com/github/elementbound/jamtracer/raytracing/shape/CubeShape.java:53-64 | for a point of the cube the texcoords are in [0,1] |
| Shapes.CubeShape.constructor | src/main/java/com/github/elementbound/jamtracer/raytracing/shape/CubeShape.java:15-17 | a new cube has a fresh identity transform |
| Shapes.CubeShape.SetTransform | src/main/java/com/github/elementbound/jamtracer/raytracing/shape/CubeShape.java:25-27 | `setTransform` replaces the transform |
| Shapes.CubeShape.Raycast | src/main/java/com/github/elementbound/jamtracer/raytracing/shape/CubeShape.java:30-73 | a hit exactly when `tmax >= tmin && tmin >= 0`, else NO_HIT; a hit is at `getPoint(tmin)` with that face, texcoords, world point and distance |
| Shapes.Shape.Raycast | src/main/java/com/github/elementbound/jamtracer/raytracing/shape/SphereShape.java:30-70 | any shape's hit reports the shape, a 3D point and its distance from the ray's origin, and a miss is NO_HIT |
| Lights.LightState.GetRayTowardsSource | src/main/java/com/github/elementbound/jamtracer/raytracing/light/PointLight.java:55-57 | the ray towards a light starts at the point |
| Lights.LightState.IsInShadow | src/main/java/com/github/elementbound/jamtracer/raytracing/light/PointLight.java:60-66 | only a hit can shadow a point |
| Lights.PointLight.constructor | src/main/java/com/github/elementbound/jamtracer/raytracing/light/PointLight.java:11-14 | a new point light has no colour, no position and intensity 0 |
| Lights.PointLight.SetColor | src/main/java/com/github/elementbound/jamtracer/raytracing/light/PointLight.java:36-38 | `setColor` replaces only the colour |
| Lights.PointLight.SetIntensity | src/main/java/com/github/elementbound/jamtracer/raytracing/light/PointLight.java:41-43 | `setIntensity` replaces only the intensity |
| Lights.PointLight.SetPosition | src/main/java/com/github/elementbound/jamtracer/raytracing/light/PointLight.java:50-52 | `setPosition` replaces only the position |
| Lights.PointLight.State | src/main/java/com/github/elementbound/jamtracer/raytracing/light/PointLight.java:17-33 | the getters read the current colour, intensity and position |
| Lights.PointLight.GetRayTowardsSource | src/main/java/com/github/elementbound/jamtracer/raytracing/light/PointLight.java:55-57 | `lookat(point, position)`: it starts at the point and reaches the light at a positive distance |
| Lights.PointLight.IsInShadow | src/main/java/com/github/elementbound/jamtracer/raytracing/light/PointLight.java:60-66 | no hit never shadows, with or without a position; a hit shadows exactly when it is nearer than the light |
| Lights.PointShadowMeansBlocked | src/main/java/com/github/elementbound/jamtracer/raytracing/light/PointLight.java:60-66 | for a hit on the ray towards the light, the point is in shadow exactly when the hit comes before the light along the ray |
| Lights.NearerThanTarget | src/main/java/com/github/elementbound/jamtracer/raytracing/Ray.java:62-67 | along a `lookat` ray, a point is nearer than the target exactly when it comes before it |
| Lights.DirectionalLight.constructor | src/main/java/com/github/elementbound/jamtracer/raytracing/light/DirectionalLight.java:11-14 | a new directional light has no colour, no direction and intensity 0 |
| Lights.DirectionalLight.SetColor | src/main/java/com/github/elementbound/jamtracer/raytracing/light/DirectionalLight.java:36-38 | `setColor` replaces only the colour |
| Lights.DirectionalLight.SetIntensity | src/main/java/com/github/elementbound/jamtracer/raytracing/light/DirectionalLight.java:41-43 | `setIntensity` replaces only the intensity |
| Lights.DirectionalLight.SetDirection | src/main/java/com/github/elementbound/jamtracer/raytracing/light/DirectionalLight.java:50-52 | `setDirection` stores the normalized direction, which `isNormalized` accepts |
| Lights.DirectionalLight.State | src/main/java/com/github/elementbound/jamtracer/raytracing/light/DirectionalLight.java:17-33 | the getters read the current colour, intensity and direction |
| Lights.DirectionalLight.GetRayTowardsSource | src/main/java/com/github/elementbound/jamtracer/raytracing/light/DirectionalLight.java:55-57 | the ray starts at the point and runs along `-direction` |
| Lights.DirectionalLight.IsInShadow | src/main/java/com/github/elementbound/jamtracer/raytracing/light/DirectionalLight.java:60-62 | any hit shadows the point, whatever the point |
| Lights.DirectionalRayOpposes | src/main/java/com/github/elementbound/jamtracer/raytracing/light/DirectionalLight.java:55-57 | the ray towards a directional light points against the light's direction |
| Lights.Light.GetRayTowardsSource | src/main/java/com/github/elementbound/jamtracer/raytracing/light/PointLight.java:55-57 | either light's ray towards itself starts at the point |
| Lights.Light.IsInShadow | src/main/java/com/github/elementbound/jamtracer/raytracing/light/DirectionalLight.java:60-62 | for either light, only a hit can shadow |
| Pigments.ColorPigment.constructor | src/main/java/com/github/elementbound/jamtracer/raytracing/pigment/ColorPigment.java:15-17 | the default colour pigment is WHITE |
| Pigments.ColorPigment.Of | src/main/java/com/github/elementbound/jamtracer/raytracing/pigment/ColorPigment.java:24-26 | the constructor stores the colour |
| Pigments.ColorPigment.SetColor | src/main/java/com/github/elementbound/jamtracer/raytracing/pigment/ColorPigment.java:42-44 | `setColor` replaces the colour |
| Pigments.ColorPigment.Evaluate | src/main/java/com/github/elementbound/jamtracer/raytracing/pigment/ColorPigment.java:47-49 | `evaluate` is the stored colour for every texcoord |
| Pigments.GradientFactor | src/main/java/com/github/elementbound/jamtracer/raytracing/pigment/GradientPigment.java:64 | the factor `length(t) * (direction . normalized(t))` is 0 when t has no length to normalize by |
| Pigments.GradientFactorIsProjection | src/main/java/com/github/elementbound/jamtracer/raytracing/pigment/GradientPigment.java:64 | the factor is `direction . t`, multiplied by the length of t when t already counts as normalized |
| Pigments.NormalizedAsWritten | src/main/java/com/github/elementbound/jamtracer/core/Vector.java:283-287 | `normalized()` on doubles: wherever the vector has a length, its components are those of `Normalized` |
| Pigments.ExtDotTo | src/main/java/com/github/elementbound/jamtracer/core/Vector.java:240-247 | `dot` on doubles: one NaN component of the second vector makes the sum NaN |
| Pigments.ExtDotToFinite | src/main/java/com/github/elementbound/jamtracer/core/Vector.java:240-247 | with finite components only, `dot` on doubles is the real dot product |
| Pigments.GradientFactorAsWrittenAgrees | src/main/java/com/github/elementbound/jamtracer/raytracing/pigment/GradientPigment.java:64 | wherever t has a length, the factor as Java evaluates it is `GradientFactor` |
| Pigments.GradientFactorAsWrittenIsNaN | src/main/java/com/github/elementbound/jamtracer/raytracing/pigment/GradientPigment.java:64 | at zero texcoords, such as (0,0), the factor as Java evaluates it is NaN, where `GradientFactor` is 0 |
| Pigments.GradientPigment.constructor | src/main/java/com/github/elementbound/jamtracer/raytracing/pigment/GradientPigment.java:19-23 | the default gradient runs from BLACK to WHITE along (0,1) |
| Pigments.GradientPigment.Of | src/main/java/com/github/elementbound/jamtracer/raytracing/pigment/GradientPigment.java:32-36 | the constructor stores the colours and the normalized direction |
| Pigments.GradientPigment.SetStartColor | src/main/java/com/github/elementbound/jamtracer/raytracing/pigment/GradientPigment.java:42-44 | `setStartColor` replaces only the start colour |
| Pigments.GradientPigment.SetEndColor | src/main/java/com/github/elementbound/jamtracer/raytracing/pigment/GradientPigment.java:50-52 | `setEndColor` replaces only the end colour |
| Pigments.GradientPigment.SetDirection | src/main/java/com/github/elementbound/jamtracer/raytracing/pigment/GradientPigment.java:58-60 | `setDirection` stores the normalized direction, which `isNormalized` accepts |
| Pigments.GradientPigment.Evaluate | src/main/java/com/github/elementbound/jamtracer/raytracing/pigment/GradientPigment.java:62-66 | `evaluate` mixes start and end by the projection of the texcoords on the direction, times their length when they already count as normalized |
| Pigments.Pigment.Evaluate | src/main/java/com/github/elementbound/jamtracer/raytracing/material/SkyMaterial.java:33-35 | either pigment's `evaluate`, dispatched |
| Pigments.GradientExamples | src/test/java/com/github/elementbound/jamtracer/raytracing/pigment/GradientPigmentTest.java:29-37 | vertical and horizontal gradients give WHITE at the far end, GRAY halfway and BLACK at (0,0) |
| Pigments.FactorExample | src/main/java/com/github/elementbound/jamtracer/raytracing/pigment/GradientPigment.java:64 | for texcoords of length 1 or at most 0.5 the factor is the dot product |
| Pigments.LongFactorExample | src/test/java/com/github/elementbound/jamtracer/raytracing/pigment/GradientPigmentTest.java:29-37 | for texcoords of squared length 1.25, such as (1,0.5), the factor is the dot product |
| Cameras.PerspectiveCamera.constructor | src/main/java/com/github/elementbound/jamtracer/raytracing/camera/PerspectiveCamera.java:16-19 | the default camera has aspect 1 and a field of view of 60 degrees in radians |
| Cameras.PerspectiveCamera.Of | src/main/java/com/github/elementbound/jamtracer/raytracing/camera/PerspectiveCamera.java:27-30 | the two-argument constructor stores both settings |
| Cameras.PerspectiveCamera.SetAspectRatio | src/main/java/com/github/elementbound/jamtracer/raytracing/camera/PerspectiveCamera.java:46-48 | `setAspectRatio(double)` replaces only the aspect ratio |
| Cameras.PerspectiveCamera.SetAspectRatioOf | src/main/java/com/github/elementbound/jamtracer/raytracing/camera/PerspectiveCamera.java:56-58 | `setAspectRatio(w, h)` stores the ratio w / h |
| Cameras.PerspectiveCamera.SetFieldOfView | src/main/java/com/github/elementbound/jamtracer/raytracing/camera/PerspectiveCamera.java:74-76 | `setFieldOfView` replaces only the field of view |
| Cameras.PerspectiveCamera.PlanePoint | src/main/java/com/github/elementbound/jamtracer/raytracing/camera/PerspectiveCamera.java:80-87 | the target is one unit forward, with x equal to z times the aspect ratio |
| Cameras.PerspectiveCamera.GetRay | src/main/java/com/github/elementbound/jamtracer/raytracing/camera/PerspectiveCamera.java:79-90 | the ray starts at ZERO and passes through the target |
| Cameras.GetRayIgnoresV | src/main/java/com/github/elementbound/jamtracer/raytracing/camera/PerspectiveCamera.java:83-87 | the ray depends on the first texcoord only: both the x and the z of the target are read from `texcoords.get(0)`, so every row of the screen gets the same rays |
| Cameras.CenterRay | src/test/java/com/github/elementbound/jamtracer/raytracing/camera/PerspectiveCameraTest.java:11-21 | u = 0.5 gives `lookat(ZERO, FORWARD)` |
| Pixels.Euclid | src/main/java/com/github/elementbound/jamtracer/raytracing/Raytracer.java:127 | the extended Euclidean algorithm: a common divisor and its Bezout coefficients |
| Pixels.Prime97 | src/main/java/com/github/elementbound/jamtracer/raytracing/Raytracer.java:127 | 97 has no divisor between 1 and 97 |
| Pixels.Inverse97 | src/main/java/com/github/elementbound/jamtracer/raytracing/Raytracer.java:127 | when N is not a multiple of 97, 97 has an inverse modulo N |
| Pixels.Scatter | src/main/java/com/github/elementbound/jamtracer/raytracing/Raytracer.java:127 | the index `(79 + 97 i) mod N` is below N |
| Pixels.Gather | src/main/java/com/github/elementbound/jamtracer/raytracing/Raytracer.java:127 | the position in the stream of an index is below N |
| Pixels.GatherScatter | src/main/java/com/github/elementbound/jamtracer/raytracing/Raytracer.java:127 | the scatter is invertible when N is not a multiple of 97 |
| Pixels.ScatterGather | src/main/java/com/github/elementbound/jamtracer/raytracing/Raytracer.java:127 | every index below N is reached when N is not a multiple of 97 |
| Pixels.PixelOf | src/main/java/com/github/elementbound/jamtracer/raytracing/Raytracer.java:128 | `(i % width, i / width)` is on the screen and encodes i back |
| Pixels.PixelStream | src/main/java/com/github/elementbound/jamtracer/raytracing/Raytracer.java:124-129 | `width * height` pixels, each on the screen |
| Pixels.PixelStreamOrder | src/main/java/com/github/elementbound/jamtracer/raytracing/Raytracer.java:127-128 | the i-th pixel is the one at index `(79 + 97 i) mod (width * height)` |
| Pixels.PixelStreamVisitsEachOnce | src/main/java/com/github/elementbound/jamtracer/raytracing/Raytracer.java:127 | when `width * height` is not a multiple of 97, every pixel of the screen appears exactly once |
| Pixels.PixelStreamRepeatsOnMultipleOf97 | src/main/java/com/github/elementbound/jamtracer/raytracing/Raytracer.java:127 | when `width * height` is a multiple of 97 the stream is no permutation: on a 97 x 1 screen every step is the pixel (79, 0) and (0, 0) never comes |
| Pixels.PixelStreamExample | src/main/java/com/github/elementbound/jamtracer/raytracing/Raytracer.java:124-129 | the 2 x 2 stream is (1,1), (0,0), (1,0), (0,1) |
| Rendering.BiasedRay | src/main/java/com/github/elementbound/jamtracer/raytracing/shape/scene/Scene.java:30-32 | the biased ray starts at `from + bias` |
| Rendering.BiasedRayKeepsDirection | src/main/java/com/github/elementbound/jamtracer/raytracing/shape/scene/Scene.java:32 | the biased ray keeps the already normalized direction |
| Rendering.ZeroBias | src/main/java/com/github/elementbound/jamtracer/raytracing/shape/scene/Scene.java:30-35 | a zero bias gives back the same ray |
| Rendering.SimpleScene.constructor | src/main/java/com/github/elementbound/jamtracer/raytracing/shape/scene/SimpleScene.java:25-30 | a new scene has no shapes, no lights, a fresh identity transform and the default material |
| Rendering.SimpleScene.SetTransform | src/main/java/com/github/elementbound/jamtracer/raytracing/shape/scene/SimpleScene.java:38-40 | `setTransform` replaces only the transform |
| Rendering.SimpleScene.SetMaterial | src/main/java/com/github/elementbound/jamtracer/raytracing/shape/scene/SimpleScene.java:48-50 | `setMaterial` replaces only the material |
| Rendering.SimpleScene.Raycast | src/main/java/com/github/elementbound/jamtracer/raytracing/shape/scene/SimpleScene.java:53-57 | `raycast` is NO_HIT for every ray |
| Rendering.SimpleScene.RaycastWithBias | src/main/java/com/github/elementbound/jamtracer/raytracing/shape/scene/Scene.java:30-35 | `raycastWithBias` is `raycast` of the biased ray |
| Rendering.SimpleScene.AddShape | src/main/java/com/github/elementbound/jamtracer/raytracing/shape/scene/SimpleScene.java:65-68 | `addShape` adds the shape to the set, leaves the rest and returns the scene |
| Rendering.SimpleScene.RemoveShape | src/main/java/com/github/elementbound/jamtracer/raytracing/shape/scene/SimpleScene.java:71-74 | `removeShape` removes the shape from the set, leaves the rest and returns the scene |
| Rendering.SimpleScene.AddLight | src/main/java/com/github/elementbound/jamtracer/raytracing/shape/scene/SimpleScene.java:77-80 | `addLight` adds the light to the set, leaves the rest and returns the scene |
| Rendering.SimpleScene.RemoveLight | src/main/java/com/github/elementbound/jamtracer/raytracing/shape/scene/SimpleScene.java:83-86 | `removeLight` removes the light from the set, leaves the rest and returns the scene |
| Rendering.SimpleScene.GetLights | src/main/java/com/github/elementbound/jamtracer/raytracing/shape/scene/SimpleScene.java:89-91 | `getLights` is the current light set |
| Rendering.AddRemoveShape | src/main/java/com/github/elementbound/jamtracer/raytracing/shape/scene/SimpleScene.java:65-74 | adding twice is adding once; removing what was just added restores the set; removing an absent member changes nothing |
| Rendering.TowardsSourceHasLength | src/main/java/com/github/elementbound/jamtracer/raytracing/material/DiffuseMaterial.java:46 | the ray towards a light has a normalized direction with a length |
| Rendering.LambertFactor | src/main/java/com/github/elementbound/jamtracer/raytracing/material/DiffuseMaterial.java:55-56 | a light's term is its colour scaled by intensity times `saturate(normal . toLight)`, a factor in [0,1] |
| Rendering.LambertBounds | src/main/java/com/github/elementbound/jamtracer/raytracing/material/DiffuseMaterial.java:55-56 | a non-negative term is at most colour times intensity, and a light behind the surface adds nothing |
| Rendering.SimpleSceneCastsNoShadows | src/main/java/com/github/elementbound/jamtracer/raytracing/material/DiffuseMaterial.java:46-56 | in a `SimpleScene` the shadow test never succeeds, so each light adds its Lambert term |
| Rendering.SumNothing | src/main/java/com/github/elementbound/jamtracer/raytracing/material/DiffuseMaterial.java:48-53 | a shadowed light, whose term is zero, leaves the sum unchanged |
| Rendering.SumRemove | src/main/java/com/github/elementbound/jamtracer/raytracing/material/DiffuseMaterial.java:45-57 | the sum is the sum without one light plus that light's term |
| Rendering.SumOrderFree | src/main/java/com/github/elementbound/jamtracer/raytracing/material/DiffuseMaterial.java:45-57 | the accumulated colour does not depend on the order the set yields the lights in |
| Rendering.Enumeration | src/main/java/com/github/elementbound/jamtracer/raytracing/material/DiffuseMaterial.java:45 | some order of the light set, each light once |
| Rendering.Contributions | src/main/java/com/github/elementbound/jamtracer/raytracing/material/DiffuseMaterial.java:45-57 | every light of the scene has a term |
| Rendering.LightingWithoutLights | src/main/java/com/github/elementbound/jamtracer/raytracing/material/DiffuseMaterial.java:39 | with no lights the accumulated colour is BLACK |
| Rendering.LightingInAnyOrder | src/main/java/com/github/elementbound/jamtracer/raytracing/material/DiffuseMaterial.java:45-57 | the lighting is the sum of the terms in any order of the light set |
| Rendering.DiffuseMaterial.constructor | src/main/java/com/github/elementbound/jamtracer/raytracing/material/DiffuseMaterial.java:15-17 | the constructor stores the colour |
| Rendering.DiffuseMaterial.SetColor | src/main/java/com/github/elementbound/jamtracer/raytracing/material/DiffuseMaterial.java:33-35 | `setColor` replaces the colour |
| Rendering.DiffuseMaterial.Evaluate | src/main/java/com/github/elementbound/jamtracer/raytracing/material/DiffuseMaterial.java:37-60 | `evaluate` is the material colour times the scene's lighting at the hit |
| Rendering.AddLights | src/main/java/com/github/elementbound/jamtracer/raytracing/material/DiffuseMaterial.java:39-57 | the loop visits every light exactly once and sums their terms in the order it visits them |
| Rendering.ReflectedRay | src/main/java/com/github/elementbound/jamtracer/raytracing/material/ReflectiveMaterial.java:13-18 | the reflected ray starts at `point + normal * 0.005` |
| Rendering.ReflectedDirection | src/main/java/com/github/elementbound/jamtracer/raytracing/material/ReflectiveMaterial.java:18 | the traced direction is incoming + 2 normal, and unlike a mirror it adds 2 to the normal component instead of negating it |
| Rendering.ReflectedDirectionExample | src/main/java/com/github/elementbound/jamtracer/raytracing/material/ReflectiveMaterial.java:18 | (0.6,0,-0.8) on the floor is traced towards (0.6,0,1.2), not the mirror (0.6,0,0.8) |
| Rendering.ReflectiveMaterial.Evaluate | src/main/java/com/github/elementbound/jamtracer/raytracing/material/ReflectiveMaterial.java:12-21 | `evaluate` is `evaluateRay` of the reflected ray with the same context, which is BLACK |
| Rendering.SkyMaterial.constructor | src/main/java/com/github/elementbound/jamtracer/raytracing/material/SkyMaterial.java:20-22 | the constructor stores the pigment |
| Rendering.SkyMaterial.SetPigment | src/main/java/com/github/elementbound/jamtracer/raytracing/material/SkyMaterial.java:28-30 | `setPigment` replaces the pigment |
| Rendering.SkyMaterial.Evaluate | src/main/java/com/github/elementbound/jamtracer/raytracing/material/SkyMaterial.java:33-35 | `evaluate` is the pigment at the ray's direction |
| Rendering.SkyIgnoresHit | src/main/java/com/github/elementbound/jamtracer/raytracing/material/SkyMaterial.java:34 | the sky depends only on the ray's direction |
| Rendering.Material.Evaluate | src/main/java/com/github/elementbound/jamtracer/raytracing/material/DiffuseMaterial.java:37-60 | any material's `evaluate`, dispatched |
| Rendering.Raytracer.constructor | src/main/java/com/github/elementbound/jamtracer/raytracing/Raytracer.java:15-20 | a new raytracer has no scene, no camera and depth limit 0 |
| Rendering.Raytracer.SetScene | src/main/java/com/github/elementbound/jamtracer/raytracing/Raytracer.java:36-38 | `setScene` replaces only the scene |
| Rendering.Raytracer.SetCamera | src/main/java/com/github/elementbound/jamtracer/raytracing/Raytracer.java:54-56 | `setCamera` replaces only the camera |
| Rendering.Raytracer.SetRayDepthLimit | src/main/java/com/github/elementbound/jamtracer/raytracing/Raytracer.java:90-92 | `setRayDepthLimit` replaces only the limit |
| Rendering.Raytracer.EvaluateRay | src/main/java/com/github/elementbound/jamtracer/raytracing/Raytracer.java:109-111 | `evaluateRay` is BLACK for every ray |
| Rendering.Raytracer.GetSkyColor | src/main/java/com/github/elementbound/jamtracer/raytracing/Raytracer.java:113-115 | `getSkyColor` evaluates the scene's material in the context |
| Rendering.Raytracer.GetRayForPixel | src/main/java/com/github/elementbound/jamtracer/raytracing/Raytracer.java:117-122 | `getRayForPixel` is the camera's ray at `(x / width, y / height)`, from ZERO |
| Rendering.PixelTexcoords | src/main/java/com/github/elementbound/jamtracer/raytracing/Raytracer.java:118-119 | u and v times the screen size give back x and y, and lie in [0,1) for a pixel on the screen |
| Rendering.SameColumnSameRay | src/main/java/com/github/elementbound/jamtracer/raytracing/Raytracer.java:117-122 | pixels in the same column get the same ray |
| Events.RemoveFirst | src/main/java/com/github/elementbound/jamtracer/event/EventSource.java:31-33 | `List.remove` leaves a list without the listener unchanged and otherwise shortens it by one |
| Events.RemoveFirstCuts | src/main/java/com/github/elementbound/jamtracer/event/EventSource.java:31-33 | only the first occurrence goes; everything before and after it stays in order |
| Events.RemoveFirstMultiset | src/main/java/com/github/elementbound/jamtracer/event/EventSource.java:31-33 | exactly one occurrence goes, when there is one |
| Events.RemoveFirstAppend | src/main/java/com/github/elementbound/jamtracer/event/EventSource.java:31-33 | in a concatenation, the occurrence removed is in the front part when that has one |
| Events.SubscribeThenUnsubscribe | src/main/java/com/github/elementbound/jamtracer/event/EventSource.java:22-33 | unsubscribing a listener just subscribed for the first time restores the list |
| Events.UnsubscribeKeepsDuplicate | src/main/java/com/github/elementbound/jamtracer/event/EventSource.java:22-33 | a listener subscribed twice stays subscribed after one unsubscription |
| Events.EventSource.constructor | src/main/java/com/github/elementbound/jamtracer/event/EventSource.java:15 | a new event source has no listeners |
| Events.EventSource.Subscribe | src/main/java/com/github/elementbound/jamtracer/event/EventSource.java:22-24 | `subscribe` appends, keeping duplicates |
| Events.EventSource.Unsubscribe | src/main/java/com/github/elementbound/jamtracer/event/EventSource.java:31-33 | `unsubscribe` removes the first equal listener only |
| Events.EventSource.Emit | src/main/java/com/github/elementbound/jamtracer/event/EventSource.java:40-42 | `emit` calls every listener once per subscription, in order, with the event, and leaves the list as it is |

## Left out

- Floating point: every `double` is an exact real. Rounding, NaN propagation and the tolerance of `compare` are not modelled. The exception is IEEE division in the cube's slab test, which is modelled with infinities and NaN.
- `sqrt`, `sin`, `cos`, `atan2` and `asin` are parameters. Only `sqrt` (a non-negative square root) and `sin`/`cos` (odd, even, Pythagorean) have laws. Nothing about `atan2` or `asin` is proved beyond the texcoord formulas.
- `Math.tan` in `PerspectiveCamera.getRay` is also a parameter. `PlanePoint` and `GetRay` state the shape of the target, not its numbers.
- Normalizing a zero vector, which gives NaNs in Java, is excluded by `HasLength`/`Length != 0` preconditions wherever the code normalizes: rays, `lookat`, the lights, the gradient's direction, the reflected ray and the transformed rays. The gradient's texture coordinates are not excluded: see the Findings. `Vectors.Divide` and `Vectors.Reciprocal` likewise require divisors without zero components.
- Vectors.Get: Java `assert`s check only `i < data.length`. The model also requires `i >= 0`, because `nat` indices are used throughout.
- Matrices.Transform: requires `columns <= rows`. That covers the square matrices the code transforms with and every matrix with fewer columns than rows. Only matrices with more columns than rows are excluded: for them the last step, `get(columns - 1, columns - 1)`, reads index `(columns - 1) * rows + columns - 1`, past the array (and past the `assert` of `get`), so the Java call always throws.
- Transforms.Transform.Placed: requires a scale with no zero component, for the same reason as `Done` below: `Vector.ONE.divide(scale)` (src/main/java/com/github/elementbound/jamtracer/raytracing/Transform.java:141) then yields infinities, and the model does not represent them.
- Transforms.Transform.UpdateMatrices: requires a scale with no zero component, for the same reason.
- Cameras.PerspectiveCamera.SetAspectRatioOf: requires a non-zero height. Java divides by it (src/main/java/com/github/elementbound/jamtracer/raytracing/camera/PerspectiveCamera.java:57) and stores an infinity or NaN for a zero height, which the model does not represent.
- Transforms.TransformUpdater.Done: requires a scale with no zero component. With a zero scalar, `Vector.ONE.divide(scale)` yields infinities, which the model does not represent.
- Lights.LightState.GetRayTowardsSource: states only that the ray starts at the point. The class-level members `PointLight.GetRayTowardsSource` and `DirectionalLight.GetRayTowardsSource` state the rest.
- Lights.LightState.IsInShadow: states only that a miss never shadows. The class-level members state the exact conditions.
- Lights.Light.GetRayTowardsSource and Lights.Light.IsInShadow: the same weaker contracts, for the interface dispatch.
- Lights.PointLight.IsInShadow: requires a position only for a hit. Java reads the position only after a hit (src/main/java/com/github/elementbound/jamtracer/raytracing/light/PointLight.java:61-62), and its only caller has already thrown in `getRayTowardsSource` when there is none (src/main/java/com/github/elementbound/jamtracer/raytracing/material/DiffuseMaterial.java:45-47).
- Vectors.Components: iterates with the corrected `hasNext` (`index < dimensions`), not the one at src/main/java/com/github/elementbound/jamtracer/core/Vector.java:371. Java's `iterator()` as written drops the last component (`IterateAsWrittenDropsLast`).
- Rendering.Raytracer.GetSkyColor: requires a scene. On the default null scene Java's `getSkyColor` (src/main/java/com/github/elementbound/jamtracer/raytracing/Raytracer.java:113-115) would throw, but it is private and nothing in the source calls it, so no reachable behaviour is lost.
- Lights.PointLight.GetRayTowardsSource: requires that a position is set. A new light has none, and Java then throws: `Ray.lookat(point, null)` (src/main/java/com/github/elementbound/jamtracer/raytracing/light/PointLight.java:56) calls `at.subtract(from)` on null (src/main/java/com/github/elementbound/jamtracer/raytracing/Ray.java:65). That exception path is not modelled.
- Lights.DirectionalLight.GetRayTowardsSource: requires that a direction is set. A new light has none, and `direction.scale(-1.0)` (src/main/java/com/github/elementbound/jamtracer/raytracing/light/DirectionalLight.java:56) then throws. That exception path is not modelled.
- Lights.Light.GetRayTowardsSource: requires what the implementing light requires, so the same unset-field exception paths are excluded.
- Rendering.CanLight, Rendering.DiffuseMaterial.Evaluate and Rendering.AddLights: every light of the scene must have its colour (and its position or direction) set. A new light has neither, and for every light that is not in shadow, which is every light of a `SimpleScene`, Java throws at `light.getColor().multiply(...)` (src/main/java/com/github/elementbound/jamtracer/raytracing/material/DiffuseMaterial.java:56). These exception paths are not modelled.
- Shapes.LocalSphereHit, Shapes.SphereShape.Raycast and Shapes.Shape.Raycast: a sphere hit uses the corrected roots of the quadratic formula (`SphereHit`), not the roots as written at src/main/java/com/github/elementbound/jamtracer/raytracing/shape/SphereShape.java:46-47 (`SphereHitAsWritten`). The code as written reports a point off the sphere whenever `b != 0`, for example t = 9 at (0,0,-4) for the input in the Findings.
- Shapes.Shape.Raycast: states the properties common to both shapes. The full contract is on each class's `Raycast`.
- The `Shape`, `Light`, `Material` and `Pigment` interfaces are closed datatypes over the classes of this revision. Other implementations, and the scene as a `Shape`, are not modelled.
- Reading a light (`Light.State`, `CanLight`) takes a snapshot of its fields. `DiffuseMaterial.evaluate` cannot change a light, so the snapshot is the state the loop sees.
- The order of a `HashSet` is not modelled. `AddLights` picks any remaining light, and `SumOrderFree` proves that the sum does not depend on the order.
- Rendering.AddLights: the shadow test and the `continue` of `DiffuseMaterial.evaluate` are folded into `Contribution`. A shadowed light's term is the zero colour, which adds nothing (`SumNothing`). In a `SimpleScene` the shadow branch is never taken, because `raycast` never hits (`SimpleSceneCastsNoShadows`).
- Rendering.DiffuseMaterial.Evaluate and Rendering.Material.Evaluate state their result against the lighting of the state before the call (`old`). Nothing changes during the call.
- `SimpleScene.raycast` calls `transform.inverseTransformRay` and discards the result. The model returns NO_HIT without computing it.
- `SimpleScene.prepare` and `Raytracer.render` have empty bodies and are not modelled.
- `Material.DEFAULT_SCENE_MATERIAL` is not defined in this revision. The scene's default is modelled as a fresh red `DiffuseMaterial`.
- `Raytracer.getRayForPixel` requires a non-zero width and height. The display is reduced to those two numbers, and `setDisplay`/`getDisplay` are not modelled.
- Pixels.PixelStream: requires `79 + 97 (N - 1)` to fit in a Java `int`. Java's `int` overflow for larger screens is not modelled.
- `RayContext.depth` is carried but never read, as in the source.
- `Light.getContributionStrength` (src/main/java/com/github/elementbound/jamtracer/raytracing/light/Light.java:62-69) is declared by the interface, but neither light implements it in this revision, so there is nothing to model.
- Pigments.GradientFactor, Pigments.GradientFactorIsProjection, Pigments.GradientPigment.Evaluate, Pigments.GradientExamples and Pigments.FactorExample: at zero-length texture coordinates these follow the intended factor 0 (BLACK for the default gradient), not the NaN that the code as written computes there (see the Findings and `GradientFactorAsWrittenIsNaN`).
- The getters of `Transform`, the lights, the pigments, the materials, the camera and the raytracer are field reads. They have no members of their own.
- `equals`, `hashCode` and `toString` of every class, `Vector.spliterator`, and `Matrix.equals` (which compares `this.columns` with `that.rows` instead of `that.columns`, src/main/java/com/github/elementbound/jamtracer/core/Matrix.java:221-222) are not modelled. `Rays.EqualsIsEquality` states `Ray.equals` as value equality.
- `EventSource.emit` is modelled by the list of calls it makes, not by running the listeners. A listener that subscribes or unsubscribes while being called is not modelled.
- The display (`AWTWindowDisplay`, `Display`), the demos and `Jamtracer` are window and animation code and are not modelled.

## Findings

| source | as written | input that shows it | evidently intended | confidence | as-written member | corrected member |
|---|---|---|---|---|---|---|
| src/main/java/com/github/elementbound/jamtracer/raytracing/shape/SphereShape.java:46-47 | `-b + Math.sqrt(discriminant) / 2.0 * a`, i.e. `-b + (sqrt(disc) / 2) a` | the ray from (0,0,5) along (0,0,-1): as written t = 9, the point (0,0,-4), which is not on the unit sphere | the quadratic formula `(-b +- sqrt(disc)) / (2a)`, giving t = 4 and the point (0,0,1) | high; not executed | Shapes.SphereHitAsWrittenExample | Shapes.SphereHit |
| src/main/java/com/github/elementbound/jamtracer/core/Matrix.java:51-53 | the result has `that.rows` columns and an array of `this.columns * that.columns` elements | a 1 x 2 times a 2 x 1: the column loop runs to `that.rows` = 2, so the step at row 0, column 1 reads `that.get(0, 1)`, index 2 of `that`'s 2-element array, past the `assert` of `get` (src/main/java/com/github/elementbound/jamtracer/core/Matrix.java:32) | `that.columns` columns and `this.rows * that.columns` elements | high; not executed | Matrices.MultiplyAsWrittenOutOfBounds | Matrices.Multiply |
| src/main/java/com/github/elementbound/jamtracer/raytracing/pigment/GradientPigment.java:64 | `texcoords.length() * direction.dot(texcoords.normalized())` | texcoords (0,0), as in src/test/java/com/github/elementbound/jamtracer/raytracing/pigment/GradientPigmentTest.java:29 and src/test/java/com/github/elementbound/jamtracer/raytracing/pigment/GradientPigmentTest.java:34: `normalized()` multiplies each 0 by `1.0 / 0.0` = infinity, giving NaN components, so the factor is 0 * NaN = NaN and the mixed colour is not BLACK | a factor of 0 at the origin of the texture plane, so the start colour, as the tests expect | high; not executed | Pigments.GradientFactorAsWrittenIsNaN | Pigments.GradientFactor |
| src/main/java/com/github/elementbound/jamtracer/core/Vector.java:370-372 | `hasNext` is `index + 1 < vector.dimensions()` | iterating (1,2,3) yields 1, 2 | `index < vector.dimensions()`, yielding every component | high; not executed | Vectors.IterateAsWrittenDropsLast | Vectors.VectorIterator.Drain |
