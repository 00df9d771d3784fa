# World of Aircraft: the physics core, modelled and proved in Dafny

World of Aircraft is a 2D game. The player paints an aircraft: wings and structures as pixel
layers, plus markers for joints and engines. The game then cuts the painting into rigid bodies,
joins them with spring joints, and flies the result under gravity, thrust and ground contact.
This project models the physics core of that game and proves what the code promises about it:

- **Vector algebra** (`Vectors`). The pure operations of `physics/Vector.java`. Its in-place
  mutators are modelled as methods of a `Vector` class that return the receiver.
- **The RK4 integrator** (`Rk4`). `physics/InterpolatorRK4.java`: ten-slot state arrays, the
  four stages, the weighted combination, and the clock.
- **Gravity** (`Gravity`). `physics/GravityInterpolatorRK4.java`. Over exact reals, one RK4 step
  under uniform gravity lands on the closed-form parabola.
- **The mass model** (`Shape`). Pixel count, mass, centre of mass, moment of inertia and squared
  collision radius of a boolean grid, each written as a reference function on the grid.
- **Segmentation** (`Segmentation`). The flood fill (`findOpaqueGroup`) and the scan
  (`splitImageIntoRigidBodies`). The parts it returns partition the opaque pixels into
  4-connected components, in scan order, with their coordinates kept.
- **Collision detection** (`Collision`). `checkCollision`: the broad-phase square, the per-pixel
  window, the mean contact point, the axis-aligned normal from integer division, the rejection of
  separating contacts, and the overlap span.
- **Rigid bodies** (`RigidBody`, class `Body`). Shape and mass updates, impulses, contact
  response with clamped friction, the update with its rotation wrap, and point containment.
- **Spring joints** (`Joints`, class `Joint`). Linear and angular springs in their stiff, loose
  and angular tiers. A joint breaks once and for all, its forces balance, and it writes back only
  velocities.
- **Assembly** (`Assembly`, `Planes`). Parts cut from a painting (`Part.splitImageIntoParts`),
  engines (`Engine`), and the plane (`Plane`): which parts `assemblePlane` keeps, how it attaches
  engines and chains joints, the order of `update`, `setLocation` and `setThrusting`.
- **The paint panel** (`Paint`, class `PaintLayer`). The stroke and marker lists that the mouse
  handlers change, and the `removeInvalidParts` filter.

Java `double` is modelled as an exact `real`, and pixel coordinates as `int`.

Some things the code takes from elsewhere become inputs to the model:

- `Math.sin`/`Math.cos` are a pair of functions with `c² + s² = 1`.
- Lengths are compared squared. An integer square root replaces `(int) Math.sqrt`.
- Rendering by `Graphics2D` is a function: the hit pixels for a collision, the layers for the
  paint panel, and the painted image for a part.

## Model

| member | source | states |
|---|---|---|
| Vectors.Plus | physics/Vector.java:203-207 | sum(a, b) is the vector from which subtracting b gives back a, component by component |
| Vectors.Minus | physics/Vector.java:214-218 | difference(a, b) is the vector to which adding b gives back a |
| Vectors.Quotient | physics/Vector.java:145-149 | divide(s) leaves the vector that, multiplied back by s, is the original (s non-zero) |
| Vectors.Neg | physics/Vector.java:157-160 | negate() leaves the vector that cancels the original |
| Vectors.LengthSquare | physics/Vector.java:65-67 | lengthSquare is never negative and is 0 for the zero vector |
| Vectors.Trunc | physics/Vector.java:57-59 | the (int) cast truncates toward zero: within one unit of the value, on the side of zero |
| Vectors.ToPoint | physics/Vector.java:57-59 | toPoint truncates each component toward zero and so lands within one pixel of the vector |
| Vectors.DifferenceUndoesSum | physics/Vector.java:203-218 | difference(sum(a, b), b) == a |
| Vectors.PlusZero | physics/Vector.java:203-207 | adding the zero vector changes nothing, on either side |
| Vectors.ScaleZero | physics/Vector.java:132-136 | multiplying the zero vector gives the zero vector |
| Vectors.QuotientZero | physics/Vector.java:145-149 | dividing the zero vector gives the zero vector |
| Vectors.NegTwice | physics/Vector.java:157-160 | negating twice restores the vector |
| Vectors.DotSymmetric | physics/Vector.java:194-196 | dot is symmetric |
| Vectors.DotSelf | physics/Vector.java:185-196 | dot(v, v) is lengthSquare(v) |
| Vectors.CrossAntisymmetric | physics/Vector.java:240-242 | cross(v1, v2) = v2.x·v1.y − v2.y·v1.x is antisymmetric, and cross(v, v) = 0 |
| Vectors.Vector.constructor | physics/Vector.java:29-32 | the new vector holds the given components |
| Vectors.Vector.Copy | physics/Vector.java:38-41 | the copy is a new object equal to the original |
| Vectors.Vector.AddXY | physics/Vector.java:84-88 | add(dx, dy) changes the receiver to its sum with (dx, dy) and returns the receiver itself |
| Vectors.Vector.Add | physics/Vector.java:96-99 | add(v) changes the receiver to its sum with v's old value (v may be the receiver) and returns the receiver |
| Vectors.Vector.SubtractXY | physics/Vector.java:108-112 | subtract(dx, dy) changes the receiver to its difference with (dx, dy) and returns the receiver |
| Vectors.Vector.Subtract | physics/Vector.java:120-123 | subtract(v) changes the receiver to its difference with v's old value and returns the receiver |
| Vectors.Vector.Multiply | physics/Vector.java:132-136 | multiply(s) scales the receiver in place and returns the receiver |
| Vectors.Vector.Divide | physics/Vector.java:145-149 | divide(s) divides the receiver in place (s non-zero) and returns the receiver |
| Vectors.Vector.Negate | physics/Vector.java:157-160 | negate() negates the receiver in place and returns the receiver |
| Vectors.Vector.GetNegated | physics/Vector.java:166-168 | getNegated returns a new vector holding −v and leaves v as it was |
| Vectors.Scale | physics/Vector.java:132-143 | the value multiply(s) leaves: both components times s; its laws are ScaleZero and the scaling back in Quotient's contract |
| Vectors.Dot | physics/Vector.java:185-197 | Vector.dot, x·x' + y·y'; DotSymmetric and DotSelf state its laws |
| Vectors.Cross | physics/Vector.java:228-242 | Vector.cross in the source's operand order, v2.x·v1.y − v2.y·v1.x; CrossAntisymmetric states its laws |
| Rk4.ZeroArray | physics/InterpolatorRK4.java:109-115 | createZeroVectorArray: ten vectors, all zero |
| Rk4.VectorArray | physics/InterpolatorRK4.java:117-121 | createVectorArray: ten vectors, the given ones first and zeros after |
| Rk4.SetValues | physics/InterpolatorRK4.java:132-134 | setValues overwrites exactly the leading entries and keeps the rest |
| Rk4.NewState | physics/InterpolatorRK4.java:125-130 | a new State holds ten values: the given ones first, zero vectors after |
| Rk4.StagesChain | physics/InterpolatorRK4.java:78-81 | each stage is the evaluation of the states advanced along the previous stage, the first from zero derivatives with step 0 |
| Rk4.StagesFrom | physics/InterpolatorRK4.java:78-81 | four evaluations chained as integrate chains them are its stages, and the arrays they were given are the probes |
| Rk4.ProbeTimes | physics/InterpolatorRK4.java:57-59 | the derivative functions are called at t, t + dt, t + dt and t + 2·dt, on the states advanced along the stage before |
| Rk4.IntegrationAt | physics/InterpolatorRK4.java:83-95 | every value becomes value + dt·(a + 2b + 2c + d)/6 of its four stage derivatives |
| Rk4.StagesInert | physics/InterpolatorRK4.java:62-68 | every stage derivative of the values 3..9 is zero |
| Rk4.HigherOrdersUnchanged | physics/InterpolatorRK4.java:62-95 | the values 3..9 of every slot never change, whatever the derivative functions |
| Rk4.DeriveDefault | physics/InterpolatorRK4.java:99-107 | the default derivative functions give zero derivatives for every state |
| Rk4.DefaultKeepsStates | physics/InterpolatorRK4.java:72-107 | with the default, all-zero derivative functions, integrate leaves every state value unchanged |
| Rk4.Interpolator.constructor | physics/InterpolatorRK4.java:39 | the clock starts at 0 |
| Rk4.Interpolator.Evaluate | physics/InterpolatorRK4.java:41-70 | evaluate builds fresh states state + deriv·dt, leaves its inputs alone and returns the derivatives at time + dt of the new states |
| Rk4.Interpolator.Integrate | physics/InterpolatorRK4.java:72-97 | integrate overwrites the states with their RK4 update, advances the clock by exactly dt, and calls the derivatives on the four probe arrays |
| Rk4.Interpolator.ApplyStages | physics/InterpolatorRK4.java:83-95 | the final loop moves every value by dxdt·dt in place |
| Gravity.GravityField | physics/GravityInterpolatorRK4.java:18-30 | the gravity derivatives answer ten vectors for every pair of body states: velocities first, then gravity and no angular acceleration |
| Gravity.BodyStates | physics/GravityInterpolatorRK4.java:33-41 | update packs the body into two well-shaped states; its contract gives only their shape, the entries (pos, vel) and (rotation, angularVel) come from NewState in its body |
| Gravity.EvaluateGravity | physics/GravityInterpolatorRK4.java:18-30 | one evaluate of the gravity field gives the advanced velocity and angular velocity as first derivatives, (0, gravity) and zero as second |
| Gravity.ZeroStepKeepsBody | physics/GravityInterpolatorRK4.java:43-48 | update(0) leaves pos, vel, rotation and angularVel unchanged |
| Gravity.NextFlightStage | physics/InterpolatorRK4.java:78-81 | each free-flight stage is velocity, gravity, angular velocity and zero, the velocity advanced along the stage before |
| Gravity.StagesOfFlight | physics/InterpolatorRK4.java:78-81 | the four stages of a gravity step carry the velocities vel, vel + g·dt/2 (twice) and vel + g·dt |
| Gravity.CombineFlight | physics/InterpolatorRK4.java:92 | the RK4 weights over those four velocities give vel + g·dt/2 |
| Gravity.FlightPosition | physics/GravityInterpolatorRK4.java:43-45 | after one gravity step pos' = pos + vel·dt + ½·(0, gravity)·dt² exactly |
| Gravity.FlightVelocity | physics/GravityInterpolatorRK4.java:43-46 | after one gravity step vel' = vel + (0, gravity)·dt exactly |
| Gravity.FlightRotation | physics/GravityInterpolatorRK4.java:43-47 | after one gravity step rotation' = rotation + angularVel·dt |
| Gravity.FlightSpin | physics/GravityInterpolatorRK4.java:43-48 | after one gravity step angularVel' = angularVel |
| Gravity.FlightIsExact | physics/GravityInterpolatorRK4.java:32-49 | RK4 is exact for uniform gravity: the step lands on the closed-form parabola, rotation advances linearly, spin is kept |
| Gravity.Update | physics/GravityInterpolatorRK4.java:32-49 | update advances the clock by dt and writes back exactly the closed-form free-flight motion |
| Gravity.FirstFlightStage | physics/InterpolatorRK4.java:72-78 | the first stage of a gravity step, taken with zero derivatives and dt = 0, reads the velocity and angular velocity of the body as it is, gravity, and no angular acceleration |
| Shape.Centre | physics/entities/RigidBody.java:174-195 | the centre of gravity is null exactly when the mask has no occupied pixel |
| Shape.ColumnCountZero | physics/entities/RigidBody.java:148-160 | a column counts no pixel exactly when none of its pixels is occupied |
| Shape.CountUpToZero | physics/entities/RigidBody.java:148-160 | the first k columns count no pixel exactly when none of their pixels is occupied |
| Shape.EmptyIffNoCell | physics/entities/RigidBody.java:147-162 | a body is empty (n == 0) exactly when no pixel of its mask is occupied |
| Shape.SumDifference | physics/entities/RigidBody.java:179-186 | a sum over the occupied pixels of a difference is the difference of the sums |
| Shape.SumScales | physics/entities/RigidBody.java:179-186 | a sum over the occupied pixels of a·F is a times the sum of F |
| Shape.SumOnes | physics/entities/RigidBody.java:179-186 | summing 1 over the occupied pixels gives their count n |
| Shape.SumConstant | physics/entities/RigidBody.java:179-186 | summing a constant over the occupied pixels gives the constant times their count |
| Shape.OffsetsBalance | physics/entities/RigidBody.java:188-194 | offsets from the mean of a coordinate over the occupied pixels sum to zero |
| Shape.CentreBalances | physics/entities/RigidBody.java:174-195 | the centre is the mean of the occupied (i, j): the offsets of the occupied pixels from it sum to zero in x and in y |
| Shape.InertiaIsDensityTimesSum | physics/entities/RigidBody.java:223-228 | momentInertia = sum / n · mass with mass = n·density is density times the sum of squared distances to the centre |
| Shape.MaxUpToBounds | physics/entities/RigidBody.java:209-221 | the running maximum is at least 0, bounds the squared distance of every occupied pixel so far and is 0 or attained by one of them |
| Shape.RadiusIsMaximum | physics/entities/RigidBody.java:204-229 | the squared collision radius bounds every occupied pixel's squared distance to the centre and, for a non-empty body, is attained |
| Shape.SolidCount | physics/entities/RigidBody.java:147-160 | a fully occupied w × h mask counts w·h pixels |
| Shape.SumUpToBound | physics/entities/RigidBody.java:209-221 | a sum of non-negative terms over the occupied pixels bounds each term |
| Shape.TwoCells | physics/entities/RigidBody.java:209-221 | a mask counting two or more pixels has two different occupied pixels |
| Shape.SpreadInertia | physics/entities/RigidBody.java:209-228 | two or more pixels give a positive sum of squared distances about any point, so momentInertia > 0 for positive density |
| Shape.PointVelocityProperties | physics/entities/RigidBody.java:448-453 | calcPointVelocity = vel + ω·(r.y, −r.x): the rotational part is perpendicular to r, and the result is vel when ω = 0 or the point is the centre |
| Shape.InverseMass | physics/entities/RigidBody.java:301 | 1/m + q/I is positive for positive mass and inertia |
| Shape.ImpulsePushesOut | physics/entities/RigidBody.java:300-302 | an approaching contact (dot(pointVel, normal) < 0) gets a positive normal impulse when mass and inertia are positive |
| Shape.StoppingOpposes | physics/entities/RigidBody.java:310-311 | the stopping value −tangentVel/(1/m + \|r\|²/I) has the sign opposite to tangentVel, and is 0 for tangentVel = 0 |
| Shape.FrictionIsBounded | physics/entities/RigidBody.java:306-320 | after the clamp the friction term is at most gravity·mass·friction and at most the stopping value in magnitude, opposes tangentVel, and is 0 without it |
| Shape.ISqrt | physics/Collision.java:41-44 | the integer square root r of n: r² ≤ n < (r + 1)² |
| Shape.FloorSqrt | physics/Collision.java:41-44 | (int) collisionRadius recovered from its square x: r² ≤ x < (r + 1)² |
| Shape.PointVelocity | physics/entities/RigidBody.java:448-453 | calcPointVelocity, vel + ω·(r.y, −r.x) with r = point − centre; PointVelocityProperties states its laws |
| Shape.ImpulseMagnitude | physics/entities/RigidBody.java:300-302 | impulseAbs = −(1 + damping)·dot(pointVel, normal) / (1/m + cross(r, normal)²/I); ImpulsePushesOut states that an approaching point gets a positive impulse |
| Shape.FrictionImpulse | physics/entities/RigidBody.java:307-320 | the friction gravity·mass·friction against the tangential velocity, clamped to the impulse that stops the point; FrictionIsBounded states its bounds and sign |
| Collision.Larger | physics/Collision.java:53-56 | Math.max: at least both arguments and one of them |
| Collision.Smaller | physics/Collision.java:53-56 | Math.min: at most both arguments and one of them |
| Collision.JavaDiv | physics/Collision.java:90-98 | Java integer division (toward zero) used for w/2, h/2 and h/w: the floor for non-negative operands, and 0 for a smaller non-negative dividend |
| Collision.Square | physics/Collision.java:41-45 | the square [L, R] × [U, D] has side 2·((int) collisionRadius + 5) and is centred at the truncated position |
| Collision.Window | physics/Collision.java:53-56 | the per-pixel window lies inside both the square and the rectangle |
| Collision.WindowNonEmpty | physics/Collision.java:47-62 | a square that strictly overlaps a rectangle of positive size leaves a window of positive size |
| Collision.ColumnHitsAre | physics/Collision.java:74-81 | the points one column of the loop collects are exactly the covered pixels of that column |
| Collision.HitsUpToAre | physics/Collision.java:74-81 | the points the first k columns collect are exactly their covered pixels |
| Collision.HitsArePaintedPixels | physics/Collision.java:74-81 | colPoints holds exactly the window's pixels that the body's drawing covers, in world coordinates |
| Collision.CollectHits | physics/Collision.java:58-81 | the collection loop builds exactly that list, x outer and y inner |
| Collision.AvgPoint | physics/Collision.java:133-142 | avgPoint returns the arithmetic mean of the points |
| Collision.TimesIsProduct | physics/Collision.java:137-139 | adding n copies of a gives n·a |
| Collision.SumWithin | physics/Collision.java:137-139 | the sum of n points in a box lies between n times its corners |
| Collision.QuotientWithin | physics/Collision.java:141 | dividing a sum bounded by n·a and n·b by n lands between a and b |
| Collision.MeanWithin | physics/Collision.java:133-142 | the mean of points inside a box lies inside the box |
| Collision.NormalProperties | physics/Collision.java:90-108 | the normal is one of (±1, 0), (0, ±1); it is vertical whenever h < w (integer h/w is 0); it points from the rectangle's centre towards the point |
| Collision.DotExtremes | physics/Collision.java:114-121 | dotMax and dotMin are the largest and smallest projections of the points on the normal, each attained |
| Collision.Overlap | physics/Collision.java:113-122 | the overlap loop returns max − min of dot(p, normal) over the collected points |
| Collision.WholeDot | physics/Collision.java:118 | a pixel point projected on an axis gives a whole number |
| Collision.WholeDots | physics/Collision.java:113-121 | the extreme projections of pixel points on an axis are whole numbers |
| Collision.CheckCollision | physics/Collision.java:37-125 | checkCollision returns exactly the outcome of the broad phase, the window, the mean contact point, the normal, the rejection and the overlap |
| Collision.NoContactWithout | physics/Collision.java:38-56 | null for an empty body, for a square that does not strictly overlap the rectangle, and when the drawing covers no pixel |
| Collision.ContactProperties | physics/Collision.java:83-124 | every contact returned approaches the surface (dot(pointVel, normal) < 0), has an axis normal, a contact point inside the window and a whole, non-negative overlap |
| Collision.GroundNormalIsVertical | physics/entities/RigidBody.java:275 | a contact with the ground rectangle (−50, groundLevel, 100000, 50) always has a vertical normal |
| Collision.Mean | physics/Collision.java:133-142 | the sum of the points divided by their number; AvgPoint computes it and MeanWithin bounds it |
| Collision.Normal | physics/Collision.java:90-108 | the axis normal from comparing abs(dy/dx) with the integer h/w; NormalProperties states which axis and which sign |
| Collision.Outcome | physics/Collision.java:37-125 | the whole of checkCollision as one definition; CheckCollision returns it, and NoContactWithout and ContactProperties state when it is null and what a contact satisfies |
| Segmentation.Opaque | physics/entities/RigidBody.java:348-353 | the pixels a split works on: exactly the in-bounds pixels whose getRGB is not −1 |
| Segmentation.GridCells | physics/entities/RigidBody.java:387-399 | the set of pixels a boolean matrix marks, exactly its true cells |
| Segmentation.AdjacentSymmetric | physics/entities/RigidBody.java:431-434 | the four neighbours findOpaqueGroup pushes form a symmetric relation |
| Segmentation.ConnectedSymmetric | physics/entities/RigidBody.java:431-434 | 4-connectedness is symmetric: a walk from a to b gives one from b to a |
| Segmentation.PathStaysInside | physics/entities/RigidBody.java:429-435 | a walk through opaque pixels that starts in a set closed under opaque neighbours never leaves it |
| Segmentation.ComponentsMeet | physics/entities/RigidBody.java:357-403 | two connected components that share a pixel are the same set |
| Segmentation.ComponentUnique | physics/entities/RigidBody.java:408-437 | the component of opaque pixels containing a seed is unique |
| Segmentation.ReachedFromSeed | physics/entities/RigidBody.java:413-435 | every pixel the fill adds at depth n is joined to the seed by a walk through the group |
| Segmentation.AllReachedFromSeed | physics/entities/RigidBody.java:413-435 | every pixel of the group is joined to the seed by a walk inside the group |
| Segmentation.TouchingNeighbour | physics/entities/RigidBody.java:431-434 | a pixel next to a set has one of its pushed neighbours in the set |
| Segmentation.ColumnBound | physics/entities/RigidBody.java:341 | a set of pixels inside one column of height h has at most h elements |
| Segmentation.AreaBound | physics/entities/RigidBody.java:341 | a set of pixels inside a w × h image has at most w·h elements |
| Segmentation.RoomLeft | physics/entities/RigidBody.java:423-427 | an untraversed in-bounds pixel shows the traversed set has room to grow, so the fill terminates |
| Segmentation.Visit | physics/entities/RigidBody.java:414-435 | one pop of the fill: out-of-bounds or traversed pixels are dropped; any other is marked traversed and, when opaque, joins the group and pushes its four neighbours; the fill invariant is kept |
| Segmentation.FindOpaqueGroup | physics/entities/RigidBody.java:408-437 | findOpaqueGroup marks exactly the 4-connected opaque component of its seed, disjoint from what was traversed before, and marks traversed that component plus the transparent pixels bordering it |
| Segmentation.FillDone | physics/entities/RigidBody.java:413-436 | when the stack runs empty the group is the whole component of the seed and the traversed set grew by exactly the group and its transparent border |
| Segmentation.GroupCorner | physics/entities/RigidBody.java:372-385 | maxX and maxY are the largest x and the largest y among the group's pixels, each attained |
| Segmentation.GroupPixels | physics/entities/RigidBody.java:372-399 | pixelData is (maxX + 1) × (maxY + 1) and marks exactly the group's pixels at their image coordinates |
| Segmentation.ScannedClosed | physics/entities/RigidBody.java:357-403 | during the scan the traversed pixels are closed under opaque neighbours |
| Segmentation.ScanDone | physics/entities/RigidBody.java:357-403 | after the scan: each group is the component of its seed, every opaque pixel is in a group, each seed is its group's first pixel in scan order, seeds come in scan order and groups are disjoint |
| Segmentation.PartsAreGroups | physics/entities/RigidBody.java:387-400 | the same facts carried over from the groups to the masks the split returns |
| Segmentation.ScanPixel | physics/entities/RigidBody.java:358-401 | one pixel of the scan: a traversed pixel is skipped, a transparent one is marked traversed, an opaque one appends its component's mask; the scan invariant is kept |
| Segmentation.SplitImage | physics/entities/RigidBody.java:338-406 | the masks returned are the 4-connected components of the non-transparent pixels, each stored in its bounding matrix, covering every such pixel, pairwise disjoint and ordered by their first pixel in column-major scan order |
| RigidBody.Ground | physics/entities/RigidBody.java:275 | the ground rectangle is wider than it is tall and has a positive height |
| RigidBody.Mask | physics/entities/RigidBody.java:141-160 | the mask read off a w × h image is a w × h grid |
| RigidBody.ReadMask | physics/entities/RigidBody.java:145-160 | the loops of updateShape build exactly the image's mask and count its occupied pixels |
| RigidBody.MaskIsOpaquePixels | physics/entities/RigidBody.java:150-157 | a mask pixel is occupied exactly when it lies in the image and its getRGB value is not 0 |
| RigidBody.EmptyMassModel | physics/entities/RigidBody.java:188-190 | a mask counts no pixel exactly when no cell is occupied, and then has no centre, mass 0, inertia 0 and collision radius 0 |
| RigidBody.MassModelOfPixels | physics/entities/RigidBody.java:174-229 | with pixels, the mass is n·density (positive for a positive density), the inertia is density times the sum of squared distances to the centre, and the collision circle reaches the farthest pixel and encloses all |
| RigidBody.SpreadMassModel | physics/entities/RigidBody.java:204-229 | two or more pixels of positive density give a positive moment of inertia |
| RigidBody.VelocityKick | physics/entities/RigidBody.java:262 | mass times the velocity change of vel + j/mass is j |
| RigidBody.SpinKick | physics/entities/RigidBody.java:259 | inertia times the change of angularVel + torque/inertia is the torque |
| RigidBody.ImpulseLaws | physics/entities/RigidBody.java:245-263 | an impulse changes momentum by the impulse and angular momentum by cross(origin − pos, impulse), leaves position and rotation, and does nothing to an empty body or for a zero impulse |
| RigidBody.ImpulseUndone | physics/entities/RigidBody.java:245-263 | the opposite impulse at the same point undoes an impulse, and acts exactly when the first one did |
| RigidBody.ImpulseAtPosition | physics/entities/RigidBody.java:254-259 | an impulse applied at the body's own position exerts no torque |
| RigidBody.CollidedKeepsRotation | physics/entities/RigidBody.java:285-327 | handleCollision never changes the rotation |
| RigidBody.AlongNormal | physics/entities/RigidBody.java:291 | the impulse a·n + f·t has part a along a unit normal n and part f along its tangent t |
| RigidBody.AxisIsUnit | physics/Collision.java:98-108 | the axis normals checkCollision reports have length 1 |
| RigidBody.QuotientAlong | physics/entities/RigidBody.java:262 | the part of j/mass along d is the part of j along d over the mass |
| RigidBody.KickOverMass | physics/entities/RigidBody.java:262 | an impulse pushing along n, bounded along t by k·mass and against tv there, changes the velocity accordingly, the tangential bound becoming k |
| RigidBody.ContactImpulseParts | physics/entities/RigidBody.java:300-323 | for an approaching contact the impulse pushes along the normal, and its tangential part is bounded by gravity·friction·mass and opposes the contact point's tangential velocity (zero without one) |
| RigidBody.CollidedMotion | physics/entities/RigidBody.java:297-325 | after a contact the body is pushed out by normal·overlap, keeps its rotation, and its velocity changed by the contact impulse over the mass |
| RigidBody.ContactResponse | physics/entities/RigidBody.java:285-327 | for an approaching contact: pushed out by normal·overlap, rotation kept, velocity gains along the normal, tangential velocity changes by at most gravity·friction and against the point's tangential velocity |
| RigidBody.GroundResponse | physics/entities/RigidBody.java:269-278 | any ground contact checkCollision reports has a vertical normal, pushes the body out by normal·overlap and gives it velocity along the normal |
| RigidBody.WrapProperties | physics/entities/RigidBody.java:107-110 | the wrap changes the rotation by 0 or ±2π, keeps a rotation already within π + 0.000001, and brings any rotation within 3π into that range |
| RigidBody.RotationStaysWrapped | physics/entities/RigidBody.java:100-113 | a body whose rotation is in range and that turns by at most π per step stays in range after update, the rotation having moved by angularVel·dt up to one full turn, whatever contact follows |
| RigidBody.ContainsAtRest | physics/entities/RigidBody.java:461-472 | for a body at its own centre of mass, both the written and the corrected point test read the mask at the point itself |
| RigidBody.ContainsMovesWithBody | physics/entities/RigidBody.java:461-472 | the corrected point test moves with the body, and for whole coordinates it reads the mask at p − pos + centre |
| RigidBody.ContainsAsWrittenMovesBackwards | physics/entities/RigidBody.java:466-467 | counterexample: a one-pixel body moved one pixel right is reported at (−1, 0) and not at the pixel (1, 0) it covers |
| RigidBody.Body.constructor | physics/entities/RigidBody.java:75-88 | a new body has the mass model of its image and rests at its own centre of mass, with a fresh interpolator at time 0 |
| RigidBody.Body.At | physics/entities/RigidBody.java:70-73 | the same body placed at the given position |
| RigidBody.Body.UpdateShape | physics/entities/RigidBody.java:141-166 | the pixels, emptiness, centre, mass, inertia and collision radius all agree with the image afterwards; image and motion untouched |
| RigidBody.Body.UpdateMass | physics/entities/RigidBody.java:174-195 | the centre becomes the mean of the occupied pixels and the mass n·density, or none and 0 without pixels; all else untouched |
| RigidBody.Body.UpdateMomentOfInertia | physics/entities/RigidBody.java:204-229 | the inertia becomes sum/n·mass for the squared distances to the centre and the radius the largest distance, both 0 without pixels; all else untouched |
| RigidBody.Body.ApplyImpulse | physics/entities/RigidBody.java:245-263 | the motion becomes the impulsed motion and the form is untouched |
| RigidBody.Body.HandleCollision | physics/entities/RigidBody.java:285-327 | the motion becomes the contact response computed from the state before the push-out; the form is untouched |
| RigidBody.Body.HandleCollisions | physics/entities/RigidBody.java:269-278 | the motion becomes the response to the contact checkCollision reports against the ground |
| RigidBody.Body.Update | physics/entities/RigidBody.java:100-113 | nothing for an empty body; otherwise one exact gravity step, the rotation wrap and the ground response, the interpolator's clock advancing by dt |
| RigidBody.Impulsed | physics/entities/RigidBody.java:245-266 | applyImpulse as a function of the motion: nothing for an empty body or a zero impulse, else vel + impulse/mass and angularVel + cross(origin − pos, impulse)/momentInertia; ImpulseLaws, ImpulseUndone and ImpulseAtPosition state its laws |
| RigidBody.ContactImpulse | physics/entities/RigidBody.java:291-324 | the restitution impulse along the normal plus the clamped friction along the tangent, from the state before the push-out; ContactImpulseParts states its parts |
| RigidBody.Collided | physics/entities/RigidBody.java:285-327 | handleCollision as a function of the motion: push out by normal·overlap, then the contact impulse at the contact point; CollidedMotion, CollidedKeepsRotation and ContactResponse state its effect |
| RigidBody.Wrap | physics/entities/RigidBody.java:106-109 | the rotation wrap, at most one ±2π correction past π + 1e-6; WrapProperties states its laws |
| RigidBody.Flown | physics/entities/RigidBody.java:104-109 | the gravity step followed by the wrap; RotationStaysWrapped states that a wrapped rotation stays wrapped |
| RigidBody.Step | physics/entities/RigidBody.java:100-113 | update(dt) as a function: nothing for an empty body, else the flight and then the ground contact where the body has flown to; Body.Update's contract is this function |
| RigidBody.ContainsAsWritten | physics/entities/RigidBody.java:461-472 | the mask read at (int)(pos − centre + p), false outside it, as written; ContainsAtRest and ContainsAsWrittenMovesBackwards state where it agrees and where it errs |
| RigidBody.ContainsAt | physics/entities/RigidBody.java:461-472 | the corrected test, the mask read at (int)(p − pos + centre); ContainsMovesWithBody states that it moves with the body |
| RigidBody.Body.PointVelocityAt | physics/entities/RigidBody.java:444-446 | getPointVelocity: calcPointVelocity about the body's position with its velocity and spin |
| RigidBody.Body.Reshape | physics/entities/RigidBody.java:78-80 | the constructors' updateShape, updateMass and updateMomentOfInertia in turn: the fields become the image's mass model, with image, size, density and motion kept |
| RigidBody.Body.ContainsPointNoRot | physics/entities/RigidBody.java:461-472 | containsPointNoRot as written, ContainsAsWritten of the body's own mask, centre and position |
| RigidBody.Body.ContainsWorldPoint | physics/entities/RigidBody.java:461-472 | the corrected test, ContainsAt of the body's own mask, centre and position |
| Joints.SquareOrder | physics/entities/SpringJoint.java:185 | comparing squared lengths decides the same as comparing lengths |
| Joints.BreakDistance | physics/entities/SpringJoint.java:185-188 | a stiff or angular joint breaks exactly when its ends are more than 35 apart, a loose joint more than 30 (StiffSpringJoint.java:21-23, LooseSpringJoint.java:23-25) |
| Joints.TurnKeepsLength | physics/entities/SpringJoint.java:88-100 | turning a radius vector by a unit (cos, sin) pair keeps its length |
| Joints.AttachPointDistance | physics/entities/SpringJoint.java:88-100 | an attachment point lies at the radius vector's length from its body's centre for any rotation |
| Joints.AttachedEndsCoincide | physics/entities/SpringJoint.java:47-58 | right after attach, at rotation 0, both ends are the attachment point, so the spring starts unstretched |
| Joints.JointStates | physics/entities/SpringJoint.java:131-148 | the states array is four well-shaped slots; its contract gives only that shape, the entries (both linear motions, then both angular ones) come from NewState in its body |
| Joints.Accelerations | physics/entities/SpringJoint.java:201-229 | body 2 is accelerated by force2 and body 1 by its reaction, each over its mass, and each spins at torque over inertia about its position; the other slots are zero |
| Joints.SpringMomentumBalance | physics/entities/SpringJoint.java:170-215 | the linear accelerations balance (m1·a1 + m2·a2 = 0), and an overstretched spring answers all-zero derivatives |
| Joints.TurnUpResult | physics/entities/AngularSpringJoint.java:46-48 | the first loop adds whole turns until the angle is at least −π − 0.000001, and does nothing to an angle already there |
| Joints.TurnDownResult | physics/entities/AngularSpringJoint.java:49-51 | the second loop takes whole turns away until the angle is in [−π − 0.000001, π + 0.000001], and does nothing to an angle already there |
| Joints.RelativeAngleRange | physics/entities/AngularSpringJoint.java:44-53 | the relative angle is angle1 − angle2 up to whole turns and in [−π − 0.000001, π + 0.000001], and is angle1 − angle2 itself when that is in range |
| Joints.CalcRelativeAngle | physics/entities/AngularSpringJoint.java:44-53 | the two loops compute the relative angle, which lies in range |
| Joints.Torqued | physics/entities/AngularSpringJoint.java:77-79 | the angular spring adds equal and opposite torques, +torque to body 1 and −torque to body 2, and keeps the linear slots |
| Joints.AngularMomentumBalance | physics/entities/AngularSpringJoint.java:58-82 | the angular joint's linear accelerations balance too, and a joint turned past π/8 answers all-zero derivatives |
| Joints.JointField | physics/entities/SpringJoint.java:160-215 | the joint's derivative functions accept every four-slot state |
| Joints.JointStage | physics/entities/SpringJoint.java:160-215 | each stage moves the values at the probed derivatives and changes the derivatives by the joint's accelerations |
| Joints.StageBalance | physics/entities/SpringJoint.java:170-215 | each stage balances the linear accelerations |
| Joints.StagesBalance | physics/InterpolatorRK4.java:72-97 | all four stages of a joint step balance the linear accelerations |
| Joints.BalancedParts | physics/entities/SpringJoint.java:204-205 | a balance m1·a + m2·b = 0 holds exactly when it holds in each coordinate |
| Joints.BalancedSum | physics/InterpolatorRK4.java:83-95 | balanced increments add up to a balanced increment |
| Joints.BalancedScale | physics/InterpolatorRK4.java:83-95 | scaling keeps a balance |
| Joints.CombinedBalance | physics/InterpolatorRK4.java:83-95 | the RK4 combination of balanced stages times dt is balanced |
| Joints.MomentumConserved | physics/entities/SpringJoint.java:129-230 | a joint step conserves linear momentum: m1·Δv1 + m2·Δv2 = 0, broken stages included |
| Joints.StepStates | physics/entities/SpringJoint.java:131-148 | the interpolator integrates the two bodies' states by one RK4 step and advances its clock by dt |
| Joints.WriteBack | physics/entities/SpringJoint.java:151-157 | only the velocities and angular velocities are written back, body 2 last; positions, rotations and forms stay |
| Joints.Joint.constructor | physics/entities/SpringJoint.java:40-45 | a new joint is intact and unattached, with a fresh interpolator at time 0 |
| Joints.Joint.Destroy | physics/entities/SpringJoint.java:108-111 | destroy breaks the joint and changes nothing else |
| Joints.Joint.Attach | physics/entities/SpringJoint.java:47-58 | with both bodies the radius vectors run from each body to the point; a missing body breaks the joint; the angular joint records body1.rotation − body2.rotation as its target and a fresh interpolator (AngularSpringJoint.java:16-20) |
| Joints.Joint.UpdateAttachmentPoints | physics/entities/SpringJoint.java:88-100 | both attachment points become the turned radius vectors added to the given centres |
| Joints.Joint.Derivatives1Effects | physics/entities/SpringJoint.java:181-188 | a derivatives1 call moves the ends to the probed state and breaks the joint exactly when that state breaks it |
| Joints.Joint.ProbeEffects | physics/entities/SpringJoint.java:181-188 | after the four probes the ends are those of the last probe and the joint is broken exactly when one probe broke it |
| Joints.Joint.Step | physics/entities/SpringJoint.java:131-158 | an intact step writes back the RK4 integration of both bodies, advances the clock and breaks the joint exactly when a probed state is overstretched or overturned |
| Joints.Joint.Update | physics/entities/SpringJoint.java:60-68 | an intact joint takes one step of its interpolator, writing back the RK4 velocities, breaking exactly when one of the four probe states is over its limit and leaving its attachment points at the last probe, and conserving the linear momentum of two distinct bodies; a broken joint only follows its bodies with its attachment points; breaking is for good |
| Joints.AttachPoint | physics/entities/SpringJoint.java:88-100 | one body's attachment point, its centre plus its radius vector turned by its rotation; AttachPointDistance and AttachedEndsCoincide state its laws |
| Joints.SpringDerivatives | physics/entities/SpringJoint.java:170-229 | derivatives1 of the linear spring: zeros once the ends are past the stretch limit, else the accelerations of spring plus damping force, with the reaction on body 1; SpringMomentumBalance states that they balance |
| Joints.RelativeAngle | physics/entities/AngularSpringJoint.java:44-53 | calcRelativeAngle, angle1 − angle2 brought up and then down by whole turns; CalcRelativeAngle computes it by the two loops and RelativeAngleRange states its range |
| Joints.AngularDerivatives | physics/entities/AngularSpringJoint.java:58-82 | derivatives1 of the angular joint: zeros once turned past π/8, else the spring's derivatives with ±torque/inertia added to the spins; AngularMomentumBalance states that they balance |
| Joints.Joint.IsBroken | physics/entities/SpringJoint.java:113-115 | isBroken reads the broken flag |
| Joints.Joint.Advance | physics/entities/Plane.java:63 | joint.update as the plane's joint loop calls it; it is Update and nothing more, and states only the part of Update's contract that loop uses |
| Assembly.PaintedMask | physics/entities/Part.java:41-50 | a grid painted in a colour other than 0 reads back as the same grid, and painted in 0 as an empty mask |
| Assembly.PaintPart | physics/entities/Part.java:41-50 | the image loop sets the material's colour exactly where the grid is set and leaves 0 elsewhere |
| Assembly.ComponentsPartition | physics/entities/Part.java:33 | covering, non-overlapping components lay every non-transparent pixel in exactly one grid and no other pixel in any |
| Assembly.Segment | physics/entities/Part.java:33 | splitImageIntoRigidBodies partitions the layer's non-transparent pixels into grids that each have a pixel |
| Assembly.SegmentHasPixels | physics/entities/RigidBody.java:387-400 | the mask of a component has a pixel and is rectangular |
| Assembly.MakePart | physics/entities/Part.java:37-51 | the part made of one grid is a fresh body of the grid's size, occupying exactly the grid, of the material's density, at rest at its centre of mass |
| Assembly.SplitImageIntoParts | physics/entities/Part.java:30-56 | one fresh, distinct part per grid of a partition of the layer's non-transparent pixels, each occupying exactly its grid and made of the material |
| Assembly.ThrustLaws | physics/entities/Engine.java:26-34 | thrust acts at the engine's position, so position, rotation and spin stay; without thrust nothing changes; with it mass times the velocity change is engineForce·dt along (cos rotation, −sin rotation) |
| Assembly.SolidOfPixels | physics/entities/RigidBody.java:174-229 | a mask with pixels of positive density has positive mass and a non-negative collision radius |
| Assembly.Engine.constructor | physics/entities/Engine.java:22-24 | a new engine is not thrusting and is a fresh body of the engine image, density 2, at rest at (x, y) |
| Assembly.Engine.Update | physics/entities/Engine.java:26-34 | the engine's motion becomes the body update followed by the thrust impulse when thrusting |
| Assembly.Engine.SetThrusting | physics/entities/Engine.java:36-38 | the thrusting flag becomes the argument |
| Assembly.ThrustImpulse | physics/entities/Engine.java:30 | engineForce·dt along (cos rotation, −sin rotation) |
| Assembly.Thrust | physics/entities/Engine.java:29-32 | when thrusting, that impulse applied at the engine's own position, else nothing; ThrustLaws states its effect |
| Planes.KeepsBySize | physics/entities/Plane.java:102 | the size filter getMass() / density > 50 keeps a part exactly when its density is not 0 and more than 50 of its pixels are occupied |
| Planes.KeptMembers | physics/entities/Plane.java:101-115 | the filter keeps exactly the listed parts that pass it |
| Planes.KeptAppend | physics/entities/Plane.java:101-115 | filtering the wings and then the structures is filtering both lists in turn |
| Planes.KeptDistinct | physics/entities/Plane.java:101-115 | the filter keeps distinct parts distinct |
| Planes.KeepParts | physics/entities/Plane.java:101-106 | the filter loop keeps exactly the passing parts, in their order |
| Planes.TruesAt | physics/entities/Plane.java:139-151 | the indices of the parts holding a marker are exactly the positions that hold it |
| Planes.TruesIncreasing | physics/entities/Plane.java:139 | those indices come in list order |
| Planes.TruesCount | physics/entities/Plane.java:139-151 | there are as many such indices as parts holding the marker |
| Planes.TruesConsecutive | physics/entities/Plane.java:139-151 | no part between two successive holders holds the marker |
| Planes.FirstIsFirst | physics/entities/Plane.java:123-130 | there is no first holder exactly when no part holds the point; otherwise it holds it and no earlier part does |
| Planes.ChainShape | physics/entities/Plane.java:137-152 | a marker held by n parts gives n − 1 links (none for n = 0), each between a holder and the next holder in list order |
| Planes.PairsSnoc | physics/entities/Plane.java:141-149 | one more holder adds one pair from the last holder |
| Planes.LayoutMembers | physics/entities/Plane.java:96-115 | the layout of the parts lists exactly those parts |
| Planes.RestingPartsAgree | physics/entities/RigidBody.java:461-472 | for a part still at its own centre of mass, as every part split off the template and not yet moved is, the written containsPointNoRot and the corrected test agree and read the pixel itself |
| Planes.ChainLinks | physics/entities/Plane.java:137-152 | one loose link per pair of successive holders |
| Planes.ChainLinksSnoc | physics/entities/Plane.java:145-148 | one more pair adds one link at the end |
| Planes.EngineLinksJoin | physics/entities/Plane.java:119-131 | every engine link joins an engine to a part, never to itself when all bodies are distinct |
| Planes.JointLinksJoin | physics/entities/Plane.java:137-152 | every loose link joins two parts, never a part to itself when the parts are distinct |
| Planes.EngineLinkShape | physics/entities/Plane.java:119-131 | an engine gets at most one joint, exactly when some part holds its point: an angular joint to the first such part |
| Planes.ChainLinksCount | physics/entities/Plane.java:137-152 | a marker held by n parts gives max(n − 1, 0) loose joints |
| Planes.ChainLinkAt | physics/entities/Plane.java:139-149 | loose link k joins a holder to the next holder, in list order, at the marker |
| Planes.AddEngine | physics/entities/Plane.java:119-131 | over parts at their own centres of mass: a fresh engine at the marker, and its joint when some part holds the point |
| Planes.PinEngine | physics/entities/Plane.java:123-130 | the scan tests each part with containsPointNoRot, as written; over parts at their own centres of mass it adds exactly the planned engine joint, to the first part holding the point |
| Planes.NewJoint | physics/entities/Plane.java:125-127 | a fresh joint attached as the link says |
| Planes.AppendJoint | physics/entities/Plane.java:127 | addJoint appends a joint realising the link |
| Planes.TruesStep | physics/entities/Plane.java:139-140 | one more part adds its index when it holds the marker |
| Planes.ChainSkip | physics/entities/Plane.java:139-150 | a part that does not hold the marker leaves previousPart and the planned links as they were, and the chain invariant holds one part further |
| Planes.ChainFirst | physics/entities/Plane.java:139-150 | the first part holding the marker becomes previousPart and no link is planned for it |
| Planes.ChainLinkNext | physics/entities/Plane.java:139-150 | a later part holding the marker gets one loose link from previousPart at the marker, and becomes previousPart |
| Planes.ChainStep | physics/entities/Plane.java:139-150 | one pass of the marker loop, testing the part with containsPointNoRot, keeps the chain invariant with the joints it makes |
| Planes.ChainJoints | physics/entities/Plane.java:137-151 | over parts at their own centres of mass, the joints of one marker realise exactly its chain of loose links |
| Planes.EngineLinksSnoc | physics/entities/Plane.java:119-131 | one more engine adds its own link at the end |
| Planes.JointLinksStep | physics/entities/Plane.java:137-152 | one more marker adds its chain at the end |
| Planes.EnginesMadeSnoc | physics/entities/Plane.java:119-131 | one more engine keeps the engine-loop invariant |
| Planes.EngineStep | physics/entities/Plane.java:120-130 | over parts at their own centres of mass, one pass of the engine loop: a new engine and its joint, keeping the engine-loop invariant |
| Planes.KeptSolid | physics/entities/Plane.java:101-115 | every kept part has pixels, a centre, positive mass and positive inertia, so it can be updated |
| Planes.EngineFormSolid | physics/entities/Engine.java:22-24 | an engine image with two or more pixels makes an engine that can be updated |
| Planes.PlanJoins | physics/entities/Plane.java:119-152 | every planned joint joins two different bodies among the parts and the engines |
| Planes.PlanSound | physics/entities/Plane.java:84-155 | the assembled parts, engines and joints make a sound plane |
| Planes.PlanStep | physics/entities/Plane.java:137-152 | the joint plan grows marker by marker |
| Planes.MakeEngines | physics/entities/Plane.java:119-131 | over distinct parts at their own centres of mass, the engine loop makes one engine per marker and exactly the planned engine joints |
| Planes.MakeJoints | physics/entities/Plane.java:137-152 | over parts at their own centres of mass, the marker loop appends exactly the planned loose joints |
| Planes.AssembleParts | physics/entities/Plane.java:93-152 | given distinct parts at their own centres of mass: the kept wings and structures, one engine per marker at its point, exactly the planned joints, and a sound set of bodies and joints |
| Planes.AssemblePlane | physics/entities/Plane.java:84-155 | given distinct parts at their own centres of mass, as the paint layer's split parts are: a fresh, sound, non-thrusting plane whose player is the first wing given, with the filtered parts, the engines and the planned joints |
| Planes.ReadyForms | physics/entities/Plane.java:51-61 | all forms ready exactly when every body can be updated |
| Planes.FreeFlight | physics/entities/Plane.java:53-61 | each part takes its own body step and each engine its step and then its thrust, none reading another body |
| Planes.SoundByEnds | physics/entities/Plane.java:51-64 | soundness depends only on the bodies, their forms and each joint's two ends |
| Planes.UpdateParts | physics/entities/Plane.java:53-61 | the body passes leave every form and give exactly the free flight of each body |
| Planes.UpdateJointAt | physics/entities/Plane.java:63 | one joint's update moves no body, reshapes none, keeps the joint's ends, never mends, and changes only the motions of its own bodies while it holds |
| Planes.UpdateJoints | physics/entities/Plane.java:62-64 | the joint pass moves no body, reshapes none, keeps the ends, never mends, and leaves the motion of every body no intact joint holds |
| Planes.ShiftLands | physics/entities/Plane.java:185-196 | the shift puts the first wing on the target and keeps every offset between two bodies |
| Planes.Plane.constructor | physics/entities/Plane.java:27-32 | a new plane has no parts, engines, joints or player and is not thrusting |
| Planes.Plane.Assembled | physics/entities/Plane.java:91-154 | the plane assemblePlane returns holds the lists it added, in order |
| Planes.Plane.Bodies | physics/entities/Plane.java:51-61 | every wing, structure and engine body is among the plane's bodies |
| Planes.Plane.Update | physics/entities/Plane.java:51-65 | every body ends where its own free flight puts it and one no intact joint holds moves exactly as its free flight says; no body is reshaped, no joint changes its bodies or mends, and the plane stays sound |
| Planes.Plane.SetThrusting | physics/entities/Plane.java:158-163 | the plane's flag and each engine's become the argument; nothing else changes |
| Planes.Plane.PlayerLocation | physics/entities/Plane.java:198-200 | the first wing's position, and none exactly when there is no wing |
| Planes.Plane.SetLocation | physics/entities/Plane.java:185-196 | with a wing, every body moves by the vector that takes the first wing to the target, keeping shape, velocities and rotations; without one nothing changes |
| Planes.KeepWingsAndStructures | physics/entities/Plane.java:101-115 | the wing loop and the structure loop keep exactly the parts the size filter passes, and the kept parts are distinct, centred, still at their centres of mass and ready to be updated |
| Planes.AttachParts | physics/entities/Plane.java:117-152 | over distinct kept parts at their own centres of mass: one engine per engine marker at its point, exactly the planned engine and chain joints, and a sound set of bodies and joints |
| Planes.FreeFlightFlies | physics/entities/Plane.java:53-61 | every entry of the free-flight update is the gravity step of its body, followed by the thrust for the engine bodies |
| Planes.Keeps | physics/entities/Plane.java:102-111 | the size filter getMass() / density > 50, false for density 0 as NaN compares; KeepsBySize states it as a pixel count |
| Planes.Shifted | physics/entities/Plane.java:185-196 | every motion with its position moved by d and all else kept; ShiftLands states where the first wing lands |
| Paint.Filter | worldofaircraft/PaintLayer.java:183-212 | what the removal keeps is no longer than the list and holds only listed markers that pass the test |
| Paint.IndexOf | worldofaircraft/PaintLayer.java:193 | the position of the first occurrence of a marker, before which none occurs, or the list's length exactly when it does not occur |
| Paint.Without | worldofaircraft/PaintLayer.java:193 | ArrayList.remove(Object) takes away the first occurrence of the marker, keeping the rest in order, and nothing when it is absent |
| Paint.FilterAppend | worldofaircraft/PaintLayer.java:148-157 | filtering a concatenation filters each part |
| Paint.FilterCount | worldofaircraft/PaintLayer.java:183-212 | the filter keeps every occurrence of a passing marker and none of a failing one |
| Paint.FilterAllKept | worldofaircraft/PaintLayer.java:183-212 | a list whose markers all pass is left as it is |
| Paint.FilterTwice | worldofaircraft/PaintLayer.java:171-213 | filtering again with the same layers removes nothing more |
| Paint.FilterMember | worldofaircraft/PaintLayer.java:183-212 | a marker survives exactly when it was listed and passes the test |
| Paint.KeepHead | worldofaircraft/PaintLayer.java:193 | a head other than the marker stays in front of the tail with its first marker removed |
| Paint.FilterWithout | worldofaircraft/PaintLayer.java:192-194 | removing a failing marker does not change what the filter keeps |
| Paint.PendingStep | worldofaircraft/PaintLayer.java:192-194 | one remove call of the removal loop keeps the pending removals enough to reach the filter |
| Paint.PendingDone | worldofaircraft/PaintLayer.java:192-194 | when the removals are used up, no failing marker is left |
| Paint.WhiteCopies | worldofaircraft/PaintLayer.java:186-190 | the inner joint loop collects only copies of the marker, and one at least exactly when some layer is white there |
| Paint.MarksPending | worldofaircraft/PaintLayer.java:184-194 | the joint marks are all failing markers and hold at least as many copies of each failing marker as the list |
| Paint.UnattachedPending | worldofaircraft/PaintLayer.java:198-212 | the unattached engines are all failing and cover every occurrence of a failing one |
| Paint.PaintLayer.constructor | worldofaircraft/PaintLayer.java:30-47 | a new panel has no strokes and no markers, paints wing material with diameter 7, places joints on right click, and shows the cursor at (0, 0) only once the mouse enters |
| Paint.PaintLayer.RemoveInvalidParts | worldofaircraft/PaintLayer.java:171-213 | a joint marker stays exactly when it is painted on both the wing and the structure layer, an engine marker exactly when it is painted on at least one; order kept |
| Paint.PaintLayer.PaintLayers | worldofaircraft/PaintLayer.java:174-181 | the wing layer and the structure layer, each painted with the eraser strokes |
| Paint.AddWhiteMarks | worldofaircraft/PaintLayer.java:186-190 | the inner joint loop appends the marker once for each layer that is white there, and nothing else |
| Paint.PaintLayer.MarkJoints | worldofaircraft/PaintLayer.java:184-191 | the joint loops collect each marker once per layer it is white in |
| Paint.PaintLayer.MarkEngines | worldofaircraft/PaintLayer.java:198-209 | the engine loops collect exactly the markers painted on no layer |
| Paint.PaintLayer.RemoveJoints | worldofaircraft/PaintLayer.java:192-194 | removing the collected joint marks leaves exactly the filtered joint markers |
| Paint.PaintLayer.RemoveEngines | worldofaircraft/PaintLayer.java:210-212 | removing the unattached engines leaves exactly the filtered engine markers |
| Paint.PaintLayer.DrawDot | worldofaircraft/PaintLayer.java:99-111 | with the brush down: a stroke from the brush to the point, the markers filtered when erasing, the brush moved to the point; with it up nothing changes |
| Paint.PaintLayer.MouseEntered | worldofaircraft/PaintLayer.java:113-117 | the cursor is shown at the mouse |
| Paint.PaintLayer.MouseExited | worldofaircraft/PaintLayer.java:119-122 | the cursor is hidden |
| Paint.PaintLayer.MouseMoved | worldofaircraft/PaintLayer.java:124-127 | the cursor follows the mouse |
| Paint.PaintLayer.MouseDragged | worldofaircraft/PaintLayer.java:129-134 | the cursor follows the mouse and, while the left button is down and the brush is down, a stroke reaches the point and an erasing stroke filters both marker lists; otherwise nothing else changes |
| Paint.PaintLayer.MousePressed | worldofaircraft/PaintLayer.java:136-161 | button 1 puts the brush down with a dot at the point; button 3 adds a joint or an engine marker as the right-click action says and filters all markers; other buttons change nothing |
| Paint.PaintLayer.MouseReleased | worldofaircraft/PaintLayer.java:163-169 | releasing button 1 lifts the brush; other buttons change nothing |
| Paint.PaintLayer.Clear | worldofaircraft/PaintLayer.java:239-244 | no strokes and no markers remain |
| Paint.PaintLayer.SetPaintMaterial | worldofaircraft/PaintLayer.java:246-248 | the brush material becomes the argument |
| Paint.PaintLayer.SetRightClickAction | worldofaircraft/PaintLayer.java:250-252 | the right-click action becomes the argument |
| Paint.PaintLayer.SetBrushSize | worldofaircraft/PaintLayer.java:254-256 | the brush diameter becomes the argument |
| Paint.PlacedMarker | worldofaircraft/PaintLayer.java:148-157 | a marker placed by right click survives the filter exactly when it passes, and the earlier markers are filtered as before |
| Paint.Survivors | worldofaircraft/PaintLayer.java:171-213 | a joint marker survives exactly when it is listed and painted on both layers; an engine marker exactly when listed and painted on either |

## Left out

- Rendering of every kind is left out: `paintComponent` of bodies, joints and the panel, `paintAtCoordinate`, `Image`, `MaterialShape` and `paintOneMaterial`. The pixels that rendering produces are inputs: `Collision.CheckCollision` takes the hit-pixel painting and `Paint` takes an `Ink` function from strokes to layers.
- Trigonometry and square roots are inputs, not computed: `Vectors.Trig`, and squared lengths in place of lengths. `length`, `normalize` and `projection` are not modelled.
- IEEE rounding, NaN and infinities are not modelled. The contact response requires `mass > 0` and `momentInertia > 0`, where the source would divide by zero.
- Positions and velocities of bodies are values. So the sharing of one `Vector` object between a Wing or Structure copy and its original part is not modelled.
- `Vector` aliasing, for example `pos.add(...)` where another object holds the same `pos`, is not captured.
- Wing, Structure and Material are inlined: a part carries its material's density and colour. GamePanel and InputManager are not part of this model. The game loop, its thread, timing and the camera are left out.
- `RigidBody.Body.constructor` requires a non-empty pixel grid. The source fails there: the centre of mass it reads is null.
- `Image.loadImageWhiteMask` is left out. The engine image is a parameter of `Planes.AssemblePlane` with at least two opaque pixels.
- `Planes.AssemblePlane` requires at least one wing, because the source reads `allWings.get(0)`. It also requires distinct input bodies, which the source's freshly created parts always are.
- `Planes.AssemblePlane` does not promise that its joints and engines are new objects. Engine bodies are modelled by composition: an `Engine` holds its `Body`.
- `Joints.Joint.Attach` requires both bodies for an angular joint. With a null body, physics/entities/AngularSpringJoint.java:18 throws a NullPointerException after `super.attach` has already destroyed the joint; that failure is not modelled. The one angular attach, physics/entities/Plane.java:126, passes a new engine and a part.
- `Collision.CheckCollision` requires a rectangle of positive width and height. With width 0, `h/w` at physics/Collision.java:98 divides by zero and throws; with height 0 the source returns null, which the model does not cover. Its only caller passes the ground rectangle, 100000 by 50 (`RigidBody.Ground`).
- `Planes.AssemblePlane` requires every given part to lie at its own centre of mass. Its only caller passes parts made by `new Part(partImage, density)` (physics/entities/Part.java:51), which sets `pos` to the centre (physics/entities/RigidBody.java:75-81), and copied into Wing and Structure by `RigidBody(RigidBody)`, which keeps that position (physics/entities/RigidBody.java:90-92). For such parts the engine and joint loops' `containsPointNoRot` agrees with the corrected test (see Findings). Assembling parts that have already moved is not modelled.
- `Planes.AssemblePlane`: the player is the first wing given, even when the size filter drops it, as in the source.
- `Planes.Plane.constructor`: the start position it takes is unused in the source as well.
- `Planes.Plane.Update` states the resting places of all bodies and the full motion only of bodies that no intact joint holds. For a held body, the velocities the joints write back are given by `Joints.Joint.Step` one joint at a time, not composed into one closed form.
- `Planes.Plane.Update`: the source runs separate loops over wings and structures (physics/entities/Plane.java:53-58). The model runs them as one pass over the same bodies in the same order.
- `Planes.Plane.SetLocation`: the exception the source throws when there is no wing is modelled as a `false` result with nothing changed. The method requires the plane's well-formedness predicate.
- `Paint.PaintLayer.RemoveInvalidParts`: a marker outside the rendered layer, where `getRGB` would throw, is not modelled. The layers are total functions.
- `Paint`: `assemblePlane`/`createParts` calls from the panel, `paintComponent` and the cursor drawing are left out.

## Findings

| source | as written | input that shows it | evidently intended | confidence | as-written member | corrected member |
|---|---|---|---|---|---|---|
| physics/entities/RigidBody.java:461-472 | `containsPointNoRot` reads the pixel at `pos − centre + p` | a one-pixel body with its centre at (0, 0), moved to pos (1, 0): the test reports the world point (−1, 0) as inside it and (1, 0), where the pixel is drawn, as outside | the pixel at `p − pos + centre`, where `paintAtCoordinate` draws it; both readings agree while `pos == centre`, as for every freshly split part | not executed | RigidBody.ContainsAsWrittenMovesBackwards | RigidBody.ContainsMovesWithBody |
