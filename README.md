# my3D core, modelled in Dafny

This project models the engine-independent core of the my3D engine, a small
C++ 3D engine built on OpenGL, glm and assimp. It covers four parts.

- **Spatial index.** Axis-aligned boxes (`AABB`) and the octree of boxes
  (`Octree`/`OctreeNode`). This covers insertion with leaf splitting, range
  queries, the shifted global box and the swept broad-phase box.
- **Physics.** The moving bodies (`Soul`, `Collider`) and the world (`Ground`).
  This covers boosts clamped at 15 and their decay, the collider's axis-separated
  position moves with their flags, and the world update: gravity, drag, a
  trapezoidal predicted sweep, the per-triangle contact response with friction
  and a damped bounce, then semi-implicit Euler integration.
- **Asset bookkeeping.** The `Converter` matrix/string serialiser, and
  `Model`'s vertex, bone, index and texture bookkeeping.
- **Animation.** The keyframe cursors and interpolation (`KeyFrame`), the
  animation record (`Animation`), and the animator (`Animator`), which advances
  the tick and walks the bone hierarchy.

Numbers are exact reals, so floating-point rounding is not modelled.
Vector length is a parameter `norm`, constrained to be a square root of the
dot product. glm matrices, quaternions and their products are symbolic:

- a transformation is a sequence of factors;
- the identity is the empty sequence;
- a product is concatenation.

Files and modules:

| file | module | models |
|---|---|---|
| results.dfy | `Results` | optional values and the failures of the engine (a missing key, a `NaN` root, an assertion) |
| linear.dfy | `Linear` | vectors, quaternions and 4x4 matrices over reals |
| mapping.dfy | `Mappings` | the input directions (`Mapping_bitset`) |
| aabb.dfy | `Boxes` | `AABB` |
| octree.dfy | `Octrees` | `OctreeNode`, `Octree` |
| soul.dfy | `Souls` | `Soul` |
| collider.dfy | `Colliders` | `Collider` |
| ground.dfy | `Grounds` | `Ground` |
| converter.dfy | `Converters` | `Converter` |
| model.dfy | `Models` | `Model`, `Hierarchy`, `Texture`, `Mesh` data |
| keyframe.dfy | `KeyFrames` | `KeyFrame` |
| animator.dfy | `Animators` | `Animation`, `Animator` |

The forms follow the source:

- Code that changes state in place is imperative Dafny: classes with
  `modifies` frames, methods with loops and their invariants, each method
  proved against a specification function. This is the octree's insertion and
  query, the bodies, the world, the parse loop, the model's loops, the
  keyframe cursors and the animator.
- Code made of expressions is functions with lemmas about them. This is the
  boxes, the serialiser's format, the force laws and the contact response.

## Model

| member | source | states |
|---|---|---|
| `Boxes.Centre` | utility/model/aabb.hpp:20 | the stored centre lies halfway between min and max |
| `Boxes.Size` | utility/model/aabb.hpp:21 | the stored size added to min gives max |
| `Boxes.GlobalAABB` | utility/model/aabb.hpp:46-49 | both corners move by t, the size is unchanged and the tag is dropped (null) |
| `Boxes.IntersectsSymmetric` | utility/model/aabb.hpp:28-33 | `intersects` is symmetric |
| `Boxes.IntersectsIffCommonPoint` | utility/model/aabb.hpp:28-45 | two non-inverted boxes intersect exactly when some point lies in both, so touching boxes intersect |
| `Boxes.ContainsReflexive` | utility/model/aabb.hpp:34-39 | every box contains itself |
| `Boxes.ContainsTransitive` | utility/model/aabb.hpp:34-39 | containment is transitive |
| `Boxes.ContainsIntersects` | utility/model/aabb.hpp:28-39 | containing a box with min <= max implies intersecting it |
| `Boxes.InvertedContainedNotIntersecting` | utility/model/aabb.hpp:28-39 | an inverted box can be contained by a box it does not intersect |
| `Boxes.IntersectsWithin` | utility/model/aabb.hpp:28-39 | a box meeting a box inside `a` meets `a` |
| `Boxes.ContainedIntersects` | utility/model/aabb.hpp:28-39 | a contained box that meets a range forces its container to meet that range |
| `Boxes.ContainsIffPoints` | utility/model/aabb.hpp:34-45 | for a non-inverted inner box, `contains` is inclusion of the point sets |
| `Boxes.ContainsPointIsContains` | utility/model/aabb.hpp:34-45 | `containsPoint(p)` equals `contains` of the degenerate box [p, p] |
| `Boxes.GlobalInvariant` | utility/model/aabb.hpp:28-49 | shifting both boxes by the same vector changes neither `intersects` nor `contains` |
| `Boxes.UnitBoxExamples` | utility/model/aabb.hpp:28-33 | the unit box misses [(2,2,2),(3,3,3)], meets [(0.5,0.5,0.5),(1.5,1.5,1.5)] and meets a face-touching box |
| `Octrees.Subdivide` | utility/model/octree.hpp:131-145 | exactly eight children, child i an empty leaf one level deeper over the octant chosen by bits 1/2/4 of i |
| `Octrees.FirstContaining` | utility/model/octree.hpp:96-101 | the index of the first child whose region contains the box (no earlier one does), or the child count when none does |
| `Octrees.Insert` | utility/model/octree.hpp:68-103 | insertion keeps the shape invariant (depth at most 5, no children or the eight octants one level deeper) and the node's region and depth |
| `Octrees.Split` | utility/model/octree.hpp:75-93 | a split leaf keeps the shape invariant, its region and its depth |
| `Octrees.Distribute` | utility/model/octree.hpp:78-92 | redistribution keeps the number of children, their regions and their shape |
| `Octrees.Place` | utility/model/octree.hpp:79-90 | handing one box on keeps the number of children, their regions and their shape |
| `Octrees.OctantInside` | utility/model/octree.hpp:131-145 | every octant of a non-inverted region is non-inverted and contained in it |
| `Octrees.OctantsCover` | utility/model/octree.hpp:131-145 | every point of the region lies in one of the eight octants |
| `Octrees.InsertMiss` | utility/model/octree.hpp:70-71 | a box that misses the node's region leaves the node and its subtree unchanged |
| `Octrees.InsertStored` | utility/model/octree.hpp:68-103 | insert stores nothing but the new box, at most once; with non-inverted boxes exactly once |
| `Octrees.LeafStored` | utility/model/octree.hpp:72-95 | the same for the leaf branch, including a split |
| `Octrees.InnerStored` | utility/model/octree.hpp:96-102 | the same for the internal-node branch |
| `Octrees.ChildStored` | utility/model/octree.hpp:96-100 | the same for insertion into a child whose region contains the box |
| `Octrees.SplitStored` | utility/model/octree.hpp:75-93 | a split holds no box outside the overflowing list; with non-inverted boxes exactly that list |
| `Octrees.DistributeStored` | utility/model/octree.hpp:78-92 | redistribution neither duplicates a box nor, for non-inverted boxes, loses one |
| `Octrees.PlaceStored` | utility/model/octree.hpp:79-90 | one redistribution step adds the box at most once, and exactly once when it is non-inverted |
| `Octrees.InsertCount` | utility/model/octree.hpp:68-103 | for non-inverted boxes the stored multiset grows by the box exactly when it meets the region, and stays non-inverted |
| `Octrees.InsertPlaced` | utility/model/octree.hpp:68-103 | insertion keeps the placement invariant: each subtree's boxes meet its region, each child's lie inside the child's region |
| `Octrees.LeafPlaced` | utility/model/octree.hpp:72-95 | the leaf branch keeps every child placed and inside its region |
| `Octrees.InnerPlaced` | utility/model/octree.hpp:96-102 | the internal-node branch keeps every child placed and inside its region |
| `Octrees.ChildPlaced` | utility/model/octree.hpp:96-100 | inserting into a child that contains the box keeps the child placed and inside its region |
| `Octrees.SplitPlaced` | utility/model/octree.hpp:75-93 | a split of boxes that meet the region is placed |
| `Octrees.LeavesPlaced` | utility/model/octree.hpp:131-145 | freshly subdivided empty children are placed |
| `Octrees.DistributePlaced` | utility/model/octree.hpp:78-92 | redistribution keeps the children placed |
| `Octrees.PlacePlaced` | utility/model/octree.hpp:79-90 | one redistribution step keeps the children placed |
| `Octrees.FilterCount` | utility/model/octree.hpp:108-110 | a node's own matches hold each box that meets the range as often as the list does, and no other box |
| `Octrees.QueryCount` | utility/model/octree.hpp:104-115 | on a placed tree, query returns each stored box meeting the range as often as it is stored, and nothing else, when the root meets the range |
| `Octrees.QueryKidsCount` | utility/model/octree.hpp:111-114 | the children's answers together hold each of their boxes meeting the range as often as stored |
| `Octrees.QueryWhole` | utility/model/octree.hpp:104-115 | querying a placed tree with its own non-inverted region returns every stored box |
| `Octrees.QueryDisjoint` | utility/model/octree.hpp:106-107 | a range that misses the root's region finds nothing |
| `Octrees.QuerySound` | utility/model/octree.hpp:104-115 | every box returned is stored and meets the range |
| `Octrees.DistributeRest` | utility/model/octree.hpp:78-92 | the boxes a split keeps are exactly those no child contains, in list order |
| `Octrees.Straddling` | utility/model/octree.hpp:89-90 | every kept box comes from the list and is contained by no child |
| `Octrees.NoSplit` | utility/model/octree.hpp:74-75 | a leaf with fewer than four boxes, or at depth 5, only appends the box |
| `Octrees.SplitShape` | utility/model/octree.hpp:74-93 | the fifth box of a leaf above depth 5 splits it into the eight octants, keeping the boxes no octant contains |
| `Octrees.InternalRule` | utility/model/octree.hpp:96-102 | at an internal node the box goes to the first child containing it, or to the node's own list |
| `Octrees.SubdivideNode` | utility/model/octree.hpp:131-145 | the allocation loop builds exactly the eight children of `Subdivide` |
| `Octrees.FindChild` | utility/model/octree.hpp:96-97 | the child scan stops at the first child containing the box |
| `Octrees.InsertNode` | utility/model/octree.hpp:68-103 | the procedure computes `Insert` |
| `Octrees.SplitNode` | utility/model/octree.hpp:77-92 | the split loop computes `Split` |
| `Octrees.QueryNode` | utility/model/octree.hpp:104-115 | the appending procedure computes `Query` |
| `Octrees.RootGlobal` | utility/model/octree.hpp:198-202 | the root region moved by p, same size, keeping the root's tag |
| `Octrees.DeltaHull` | utility/model/octree.hpp:203-220 | the swept box is exactly the hull of the root box at p and at p + d, and keeps the root's tag |
| `Octrees.Octree.constructor` | utility/model/octree.hpp:150-155 | a NaN region gives no root, otherwise an empty root leaf at depth 0 |
| `Octrees.Octree.InsertBox` | utility/model/octree.hpp:166-170 | fails without a root; otherwise inserts, keeps the tree placed, and stores a non-inverted box meeting the root once |
| `Octrees.Octree.QueryRange` | utility/model/octree.hpp:171-177 | fails without a root; otherwise returns each stored box meeting the range as often as stored |
| `Octrees.Octree.GlobalAABB` | utility/model/octree.hpp:198-202 | fails exactly without a root; otherwise the moved root box |
| `Octrees.Octree.DeltaBox` | utility/model/octree.hpp:203-220 | fails exactly without a root; otherwise a box containing the root box at p and at p + d |
| `Souls.BoostDirectionFlat` | utility/physics/soul.hpp:110-121 | the horizontal directions have no y part and ignore the y parts of front and right |
| `Souls.BoostDirectionOpposite` | utility/physics/soul.hpp:110-121 | BACKWARD_1 and LEFT_1 push opposite to FORWARD_1 and RIGHT_1 |
| `Souls.BoostDirectionVertical` | utility/physics/soul.hpp:122-127 | UP_1 and DOWN_1 push along plus or minus (0,1,0), whatever the basis |
| `Souls.BoostIdle` | utility/physics/soul.hpp:128-131 | a non-movement input, or a zero push direction, leaves the inner acceleration unchanged |
| `Souls.NormFifteen` | utility/physics/soul.hpp:135 | a vector of squared length 225 has length 15, so the clamped vector is exactly 15 long |
| `Souls.ClampFacts` | utility/physics/soul.hpp:134-135 | after the clamp the inner acceleration is at most 15 long: unchanged if it was, otherwise 15 long in the same direction |
| `Souls.BoostStep` | utility/physics/soul.hpp:131-133 | a moving boost adds exactly the unit push direction before the clamp |
| `Souls.BoostBounded` | utility/physics/soul.hpp:131-136 | an inner acceleration at most 15 long stays at most 15 long after a boost |
| `Souls.DecayOnce` | utility/physics/soul.hpp:138-142 | a decay keeps zero at zero and scales anything else by 0.99 |
| `Souls.DecayPower` | utility/physics/soul.hpp:138-142 | K decays in a row scale the inner acceleration by 0.99^K |
| `Souls.DecayRest` | utility/physics/soul.hpp:140 | any number of decays keeps a zero inner acceleration at zero |
| `Souls.DecayMoving` | utility/physics/soul.hpp:140-141 | K decays of a non-zero inner acceleration scale it by 0.99^K |
| `Souls.Soul.constructor` | utility/physics/soul.hpp:16-30 | position (x, height, y), the default basis, at rest |
| `Souls.Soul.FromMatrix` | utility/physics/soul.hpp:31-34 | position is the matrix's translation column, the other fields at their defaults |
| `Souls.Soul.Moved` | utility/physics/soul.hpp:38-55 | the new body takes every modelled field; the source's position, basis, velocity and both accelerations become zero |
| `Souls.Soul.SetView` | utility/physics/soul.hpp:93-104 | front, up and right become rows 2, 1 and 0 of the upper 3x3 block; nothing else changes |
| `Souls.Soul.ProcessBoost` | utility/physics/soul.hpp:105-137 | the inner acceleration becomes `Boost` of the old state; no other field changes |
| `Souls.Soul.ProcessDecay` | utility/physics/soul.hpp:138-142 | the inner acceleration becomes `Decay` of the old one; no other field changes |
| `Linear.Frame` | utility/physics/soul.hpp:62-69 | `getGlobalMat` (also utility/physics/collider.hpp:79-86): columns (right,0), (up,0), (front,0) and (position,1) |
| `Linear.FrameRows` | utility/physics/soul.hpp:93-104 | rows 0, 1, 2 of the transposed frame, which `setView` reads, are right, up and front |
| `Colliders.Radius` | utility/physics/collider.hpp:119 | the shell radius is the largest of max.x, max.z, abs(min.x) and abs(min.z): at least each of them and equal to one |
| `Colliders.AxisNormalize` | utility/physics/collider.hpp:163-173 | the vertical push axes have length one, so normalising them changes nothing |
| `Colliders.CanMoveIff` | utility/physics/collider.hpp:110-161 | a horizontal move is defined exactly when the flattened front/right vector is not zero |
| `Colliders.PosMoveBlocked` | utility/physics/collider.hpp:105-106 | moving towards `whereHit` changes no field at all |
| `Colliders.PosMoveFlags` | utility/physics/collider.hpp:108-181 | any other direction sets the moving flag; only UP_1/DOWN_1 set the falling flag; basis, speed, bounds and `whereHit` never change; a non-movement input changes only the moving flag |
| `Colliders.ScaledUnit` | utility/physics/collider.hpp:114 | a step of length k along the normalised direction has squared length k*k and points along the direction |
| `Colliders.HorizontalFeet` | utility/physics/collider.hpp:114-116 | the feet keep their height and move velocity*dt along the direction |
| `Colliders.Reach` | utility/physics/collider.hpp:119-121 | the point the radius beyond the feet along the direction lies at distance radius |
| `Colliders.HorizontalShell` | utility/physics/collider.hpp:117-121 | the shell keeps its height and sits the radius beyond the feet along the direction |
| `Colliders.PosMoveHorizontal` | utility/physics/collider.hpp:110-161 | FORWARD_1/BACKWARD_1/LEFT_1/RIGHT_1: `direction_` is the flattened front/right, the feet move velocity*dt along it at the same height, the shell the radius further on at its old height |
| `Colliders.PosMoveVertical` | utility/physics/collider.hpp:162-177 | UP_1/DOWN_1 change only the feet's height, by plus or minus velocity*dt; the shell goes to feet + max.y (up) or to the feet (down) |
| `Colliders.Collider.constructor` | utility/physics/collider.hpp:14-32 | feet at (x, height, y), shell at the model's middle height; falling, not moving, nothing blocked, default speed and basis |
| `Colliders.Collider.FromMatrix` | utility/physics/collider.hpp:33-37 | feet at the matrix's translation column, the shell above it at the middle height, the other fields at their defaults |
| `Colliders.Collider.Moved` | utility/physics/collider.hpp:41-64 | the new collider takes every modelled field; the source has both flags false, `whereHit` = count, zero vectors and zero speed |
| `Colliders.Collider.ClearFallingFlag` | utility/physics/collider.hpp:73 | only the falling flag changes, to false |
| `Colliders.Collider.ClearMovingFlag` | utility/physics/collider.hpp:74 | only the moving flag changes, to false |
| `Colliders.Collider.SetWhereHit` | utility/physics/collider.hpp:99-102 | only `whereHit` changes |
| `Colliders.Collider.SetViewMove` | utility/physics/collider.hpp:87-98 | rows 2, 1, 0 of the upper 3x3 block become front, up and right; nothing else changes |
| `Colliders.Collider.ProcessPosMove` | utility/physics/collider.hpp:103-181 | the fields afterwards are `PosMove` of the fields before |
| `Colliders.Collider.HorizontalStep` | utility/physics/collider.hpp:111-121 | one horizontal case, field by field, as `HorizontalMove` |
| `Colliders.Collider.VerticalStep` | utility/physics/collider.hpp:163-176 | one vertical case, field by field, as `VerticalMove` |
| `Grounds.ScaleNegUnit` | utility/physics/ground.hpp:64 | scaling the negated unit vector by k*len is scaling the vector itself by -k |
| `Grounds.BuoyancyFacts` | utility/physics/ground.hpp:58-65 | buoyancy is zero when g, V or rho is zero, and is otherwise -rho*V*g, of length rho*V*abs(g) against g |
| `Grounds.ResistanceZero` | utility/physics/ground.hpp:69-71 | drag is zero at rest or with a zero coefficient |
| `Grounds.ResistanceLaminar` | utility/physics/ground.hpp:72-75 | up to speed 3 drag is -C*v, of length C*s against v |
| `Grounds.ResistanceTurbulent` | utility/physics/ground.hpp:72-75 | above speed 3 drag is -C*s*v, of length C*s*s against v |
| `Grounds.TangentOrthogonal` | utility/physics/ground.hpp:92 | the tangential velocity has no normal component |
| `Grounds.FrictionDirFacts` | utility/physics/ground.hpp:93-95 | the friction direction lies in the contact plane, is zero when the squared tangential speed is at most 1e-6, and is otherwise the unit vector against the tangential velocity |
| `Grounds.FrictionAgainst` | utility/physics/ground.hpp:95 | minus the normalised tangent stays in the plane and scales back to the tangent |
| `Grounds.RespondVelocity` | utility/physics/ground.hpp:91-107 | an inward velocity leaves with normal component -0.9 times the incoming one and its tangential part unchanged; an outward one is kept |
| `Grounds.RespondInner` | utility/physics/ground.hpp:89-105 | an inward inner acceleration loses exactly its normal part; an outward one is kept |
| `Grounds.RespondOuter` | utility/physics/ground.hpp:90-105 | the outer acceleration loses its inward normal part and gains friction 0.9 times the removed inward parts of both channels, along the friction direction |
| `Grounds.OuterCombine` | utility/physics/ground.hpp:96-104 | the two conditional friction additions sum to one friction term |
| `Grounds.RespondOuterNormal` | utility/physics/ground.hpp:96-100 | the outer acceleration's normal part ends at zero when it pointed inward and is otherwise unchanged |
| `Grounds.RespondUntouched` | utility/physics/ground.hpp:96-107 | a contact nothing pushes into changes nothing |
| `Grounds.TriangleNormalUnit` | utility/physics/ground.hpp:82-88 | the triangle normal, when defined, has length one |
| `Grounds.TriangleNormalTagged` | utility/physics/ground.hpp:79-88 | for a triangle box whose tag names three indices of the mesh, each naming a vertex, the triangle is skipped exactly when its cross product has length zero |
| `Grounds.OffsetAppend` | utility/physics/ground.hpp:80-108 | triangles are resolved sequentially: two runs resolve as the second run from the state the first one left |
| `Grounds.ResolveAppend` | utility/physics/ground.hpp:42-43 | world boxes are resolved sequentially in query order, each from the state the previous left |
| `Grounds.PredictedKinematics` | utility/physics/ground.hpp:38-40 | the predicted displacement (v0 + v1)*dt/2 is v0*dt + a*dt*dt/2 |
| `Grounds.IntegrateDisplacement` | utility/physics/ground.hpp:44-45 | velocity grows by a*dt and position by v0*dt + a*dt*dt (semi-implicit Euler) |
| `Grounds.AdvanceForgetsOuter` | utility/physics/ground.hpp:33 | the outer acceleration a body brings into a step has no effect: it is reset to gravity |
| `Grounds.WorldAccAtRest` | utility/physics/ground.hpp:28-36 | a body at rest starts its step with exactly gravity (0, -9.8, 0) |
| `Grounds.AdvanceFree` | utility/physics/ground.hpp:38-46 | with no world box in the sweep a step is pure integration from gravity plus drag |
| `Grounds.Prepare` | utility/physics/ground.hpp:33-41 | the outer channel is reset to gravity plus drag over mass and the sweep is `getDeltaAABB` of the predicted step |
| `Grounds.IntegrateStep` | utility/physics/ground.hpp:44-46 | velocity, then position with the new velocity, then the decay |
| `Grounds.Ground.constructor` | utility/physics/ground.hpp:17 | no bodies; the environment's octree and meshes |
| `Grounds.Ground.AddCollider` | utility/physics/ground.hpp:23 | `emplace`: a new name gets the body, an existing name keeps its old body |
| `Grounds.Ground.GetCollider` | utility/physics/ground.hpp:24 | the body stored under the name, or NotFound (the `at` throw) exactly when the name is absent |
| `Grounds.Ground.Update` | utility/physics/ground.hpp:25-49 | every body, and only those, is advanced by one step; world and meshes are unchanged |
| `Grounds.Ground.StepBody` | utility/physics/ground.hpp:31-46 | one loop iteration computes `Advance` |
| `Grounds.Ground.ResolveHits` | utility/physics/ground.hpp:42-43 | the loop over the world hits computes `Resolve` |
| `Grounds.Ground.CollidingOffset` | utility/physics/ground.hpp:77-109 | the triangle loop computes `HitStep`: the mesh's triangles in query order |
| `Grounds.Ground.ContactStep` | utility/physics/ground.hpp:91-95 | one triangle with a known normal computes `Contact` |
| `Grounds.Ground.Apply` | utility/physics/ground.hpp:96-107 | the three conditional updates compute `Respond` |
| `Converters.ConvertMatrixToGlm` | utility/model/converter.hpp:14-21 | glm's column j, row i holds assimp's row i, column j: the same matrix stored by columns |
| `Converters.GetGlmVec` | utility/model/converter.hpp:22-25 | x, y and z keep their values |
| `Converters.GetGlmQuat` | utility/model/converter.hpp:26-29 | the components are passed in glm's (w, x, y, z) order, each keeping its value |
| `Converters.Fields` | utility/model/converter.hpp:33-48 | exactly sixteen fields, field k the formatted `src[k % 4][k / 4]` |
| `Converters.FindHash` | utility/model/converter.hpp:57 | `getline` stops at the first '#', or at the end of the text when there is none |
| `Converters.FindHashJoined` | utility/model/converter.hpp:33-48 | in a joined text the first '#' ends the first field |
| `Converters.ItemsOfJoin` | utility/model/converter.hpp:30-57 | splitting the '#'-joined fields gives the fields back, when no field holds a '#' and the last is not empty |
| `Converters.MatrixToStringFields` | utility/model/converter.hpp:30-50 | the serialised text splits into exactly sixteen items, item k the formatted `src[k % 4][k / 4]` |
| `Converters.SetField` | utility/model/converter.hpp:60 | field k is written to `dst[k / 4][k % 4]` and every other slot is unchanged |
| `Converters.ParseFieldsMeaning` | utility/model/converter.hpp:57-64 | parsing fails (NotANumber, the `stof` throw) exactly when one of the first sixteen items is not a number; otherwise item k is at `[k / 4][k % 4]` and slots without an item keep their value |
| `Converters.ParseFieldsIgnoresTail` | utility/model/converter.hpp:58-64 | items after the sixteenth are never looked at |
| `Converters.RoundTripTransposes` | utility/model/converter.hpp:30-66 | parsing a serialised matrix gives its transpose, when parsing a formatted number gives the number back |
| `Converters.ConvertStringToMatrix` | utility/model/converter.hpp:51-66 | the `getline` loop computes `StringToMatrix` |
| `Models.Positions` | utility/model/model.hpp:155 | one position per assimp vertex |
| `Models.BaseVertexDefaults` | utility/model/model.hpp:153-190 | after the first loop a vertex has its position, its normal, texture coordinates, tangent and bitangent or zero where assimp has none, and all four bone slots at -1 |
| `Models.BaseVertices` | utility/model/model.hpp:151-152 | one vertex per assimp vertex |
| `Models.BoundsFirst` | utility/model/model.hpp:156-157 | the first vertex initialises both min and max |
| `Models.BoundsExtend` | utility/model/model.hpp:158-166 | taking one more position into the running min/max keeps them the componentwise bounds |
| `Models.MinMaxAreBounds` | utility/model/model.hpp:153-166 | the running min and max are below and above every position, each component attained by some position |
| `Models.FillVertices` | utility/model/model.hpp:151-190 | the first loop builds the default-filled vertices, and min/max are the running bounds (untouched for an empty mesh) |
| `Models.FirstFree` | utility/model/model.hpp:204-205 | the first slot still at -1, or 4 when all are taken |
| `Models.FirstFreeIs` | utility/model/model.hpp:204-205 | a slot at -1 with every earlier slot taken is the first free slot |
| `Models.PlaceFacts` | utility/model/model.hpp:200-211 | a weight fills exactly the first free slot with the bone id and weight, keeps the taken slots a prefix and is dropped when all four are used |
| `Models.PlaceWeight` | utility/model/model.hpp:204-210 | the slot loop computes `Place` |
| `Models.DivAdd` | utility/model/model.hpp:224 | dividing two weights by the total is dividing their sum |
| `Models.PrefixSumDivided` | utility/model/model.hpp:222-226 | every taken weight divided by the total divides their sum by the total |
| `Models.NormalisedSumsToOne` | utility/model/model.hpp:213-227 | the taken weights sum to one after normalisation when their total was positive, and the vertex is unchanged otherwise; slots never change |
| `Models.NormaliseWeights` | utility/model/model.hpp:215-226 | the two inner loops compute `Normalised` |
| `Models.ApplyWeights` | utility/model/model.hpp:200-211 | placing one bone's weights keeps the vertex count and the slot shape |
| `Models.ApplyBones` | utility/model/model.hpp:191-212 | placing every bone's weights keeps the vertex count and the slot shape |
| `Models.MeshVertices` | utility/model/model.hpp:148-229 | one returned vertex per assimp vertex |
| `Models.BonesInPrefix` | utility/model/model.hpp:191 | the bones before a point of the loop still name vertices of the mesh |
| `Models.ApplyBonesStep` | utility/model/model.hpp:191-212 | one more bone places its weights over those of the bones before it |
| `Models.BaseVerticesSlots` | utility/model/model.hpp:188-189 | the vertices start with every slot free, and the bones name existing vertices |
| `Models.MeshVerticesOf` | utility/model/model.hpp:213-228 | normalising each placed vertex gives the returned vertices |
| `Models.ApplyWeightsKeeps` | utility/model/model.hpp:200-211 | placing weights keeps taken slots a prefix and leaves the other attributes alone |
| `Models.ApplyBonesKeeps` | utility/model/model.hpp:191-212 | placing all bones keeps taken slots a prefix and leaves the other attributes alone |
| `Models.MeshVerticesFacts` | utility/model/model.hpp:148-229 | the returned vertices have their slots as a prefix and their attributes from the first loop, and their weights sum to one whenever the placed weights had a positive total |
| `Models.FlattenAppend` | utility/model/model.hpp:235-237 | the index list of two runs of faces is the concatenation of theirs |
| `Models.FlattenTriangles` | utility/model/model.hpp:234 | triangulated faces give three indices per face |
| `Models.ProcessIndices` | utility/model/model.hpp:230-239 | the index list is every face's indices, in face order |
| `Models.FindTexture` | utility/model/model.hpp:262-268 | the first loaded texture whose path matches, or none when no loaded path matches |
| `Models.LoadAllFacts` | utility/model/model.hpp:257-278 | loaded paths stay pairwise distinct, the loaded list only grows at its end, and each requested path yields a texture with that path taken from the loaded list |
| `Models.ExtendsTrans` | utility/model/model.hpp:276 | the loaded list only grows at its end, across several calls |
| `Models.MaterialTexturesFacts` | utility/model/model.hpp:240-251 | the four texture types in order: one texture per path, each a loaded one, and the loaded paths stay distinct |
| `Models.LoadPaths` | utility/model/model.hpp:257-278 | the path loop computes `LoadAll` |
| `Models.SearchTexture` | utility/model/model.hpp:261-268 | the search loop computes `FindTexture` |
| `Models.MergeAsWrittenMissesMesh` | utility/model/model.hpp:114-127 | as written, a root mesh and one child mesh leave the child's mesh outside the model bounds |
| `Models.MergedCovers` | utility/model/model.hpp:113-127 | merging the mesh just pushed keeps the bounds around every mesh, defined exactly when there is one |
| `Models.RegistryDense` | utility/model/model.hpp:104-109 | registry ids are 0 .. n-1, one per name, and each entry carries its own name |
| `Models.IdsBelow` | utility/model/model.hpp:106 | exactly the ids 0 .. n-1 |
| `Models.RegisteredOk` | utility/model/model.hpp:104-109 | a new name gets the registry size as its id; a known name keeps its entry; the registry stays dense; no child link is added |
| `Models.GrowsTrans` | utility/model/model.hpp:104-109 | a registered entry keeps its id, offset and name across any number of registrations |
| `Models.ChildAddedOk` | utility/model/model.hpp:134 | appending a child keeps the registry dense and every entry's id, offset and name |
| `Models.SelfChildUnlayered` | utility/animation/animator.hpp:120-121 | a node listed among its own children has no height witness, the case in which `calculateTransform` recurses without end |
| `Models.OnlyRegistersTrans` | utility/model/model.hpp:104-109 | registrations in a row keep every entry and add no child link |
| `Models.LinkedFromEmpty` | utility/model/model.hpp:36-52 | the links processing adds to the empty registry are all pairs of the node tree, with registered children |
| `Models.LinksTrans` | utility/model/model.hpp:129-135 | the child links added by two steps in a row are tree pairs of the node, with registered children |
| `Models.RegistersLinks` | utility/model/model.hpp:104-128 | registering the node and the bones of its meshes adds no child link |
| `Models.LinksOfChild` | utility/model/model.hpp:131-133 | the links added while processing a child are tree pairs of the parent |
| `Models.ChildLinked` | utility/model/model.hpp:134 | appending the child's name to the node's entry adds the tree pair of node and child |
| `Models.TreeEdgesOfChild` | utility/model/model.hpp:129-135 | the node paired with each child, and every pair of a child's subtree, are pairs of the tree |
| `Models.LevelsKeys` | utility/model/model.hpp:129-135 | the levels of a tree name exactly its node names |
| `Models.LevelsFromKeys` | utility/model/model.hpp:129-135 | the levels of the children from the `i`-th on name exactly the names of those subtrees |
| `Models.NamesFromHas` | utility/model/model.hpp:129-135 | a name is among the subtrees from the `i`-th child on exactly when one of those subtrees has it |
| `Models.NamesFromSplit` | utility/model/model.hpp:129-135 | a name is in a subtree from the `i`-th on exactly when it is in the `i`-th or in a later one |
| `Models.LevelsFromAt` | utility/model/model.hpp:129-135 | with unique names, a name of one child's subtree has the level it has in that subtree |
| `Models.ChildFewer` | utility/model/model.hpp:129-135 | with unique names, a child's subtree has fewer names than the tree |
| `Models.EdgeChild` | utility/model/model.hpp:129-135 | a tree pair is the node with one of its children, or a pair of that child's subtree |
| `Models.EdgeNames` | utility/model/model.hpp:129-135 | both names of a tree pair are names of the tree |
| `Models.LevelsDescend` | utility/model/model.hpp:129-135 | with unique names, the child of every tree pair has a strictly lower level than its parent |
| `Models.LevelsOver` | utility/model/model.hpp:129-135 | every registered name has a level; a tree name keeps its tree level |
| `Models.LinkDescends` | utility/model/model.hpp:129-135 | in a registry linked as a tree with unique names, each child is registered and lower than its parent |
| `Models.TreeLayered` | utility/model/model.hpp:129-135 | a registry linked as a tree with unique names is layered, so following children from any entry ends |
| `Models.LinksDescend` | utility/model/model.hpp:129-135 | in a registry linked as a tree with unique names every child link goes down in the tree's levels |
| `Models.LayeredOver` | utility/model/model.hpp:129-135 | child links that go down in the levels make the levels a height witness |
| `Models.RegistersParented` | utility/model/model.hpp:104-109 | registering names keeps a registry in which no name is listed as a child twice |
| `Models.RegistersFresh` | utility/model/model.hpp:104-109 | registering names keeps names that have no children and are nobody's child so |
| `Models.AppendParented` | utility/model/model.hpp:134 | appending a name listed nowhere keeps a registry in which no name is listed as a child twice |
| `Models.AppendFresh` | utility/model/model.hpp:134 | appending a name outside a set to an entry outside it keeps the set's names childless and unlisted |
| `Models.LinksFresh` | utility/model/model.hpp:129-135 | processing a subtree links only its own names, so names outside it stay childless and unlisted |
| `Models.LinksUnlisted` | utility/model/model.hpp:129-135 | a name outside the processed subtree listed nowhere stays listed nowhere |
| `Models.ChildNames` | utility/model/model.hpp:130-133 | a child's name and its subtree's names are names of the tree |
| `Models.KeptOutsideTrans` | utility/model/model.hpp:129-135 | two steps that keep the child lists outside a set keep them across both |
| `Models.StageStart` | utility/model/model.hpp:103-129 | after the node is registered and its meshes processed, the child loop starts from a forest in which every child subtree is fresh |
| `Models.NodeStarted` | utility/model/model.hpp:103-129 | the registration and mesh steps only grow the registry, add no link outside the subtree, and start the child loop |
| `Models.LinksPieced` | utility/model/model.hpp:99-136 | two pieces of processing of the same subtree make one |
| `Models.StageNext` | utility/model/model.hpp:130-135 | one child processed and appended keeps the registry a forest, lists the first children in order and keeps the later subtrees fresh |
| `Models.BoneIds` | utility/model/model.hpp:207 | one registry id per bone of the mesh |
| `Models.PlaceBoneWeights` | utility/model/model.hpp:200-211 | the weight loop of one bone computes `ApplyWeights` |
| `Models.NormaliseAll` | utility/model/model.hpp:213-227 | every vertex normalised, in place |
| `Models.IdsKept` | utility/model/model.hpp:195-199 | the ids found for earlier bones stay valid as the registry grows |
| `Models.PlaceBones` | utility/model/model.hpp:191-212 | each bone registered and its weights placed under its registry id; the registry only grows, adds no child link and stays dense |
| `Models.Model.constructor` | utility/model/model.hpp:36-52 | the node tree processed from the root; the root names the root node's entry; every child link is a parent–child pair of the node tree with a registered child; with unique node names no name is listed as a child twice (`Parented`); registry dense, loaded paths distinct, bounds around every mesh |
| `Models.Model.Register` | utility/model/model.hpp:104-109 | the `contains`/`emplace` registration, nothing else changes |
| `Models.Model.ProcessVertices` | utility/model/model.hpp:148-229 | the vertices are `MeshVertices` under the registry ids, min/max the bounds of the positions, every bone registered |
| `Models.Model.LoadMaterialTextures` | utility/model/model.hpp:252-279 | textures and the loaded list are `LoadAll` of the old loaded list |
| `Models.Model.ProcessTextures` | utility/model/model.hpp:240-251 | the material's textures and the new loaded list are `MaterialTextures` of the old one |
| `Models.Model.ProcessMesh` | utility/model/model.hpp:137-147 | the mesh's vertices under the registry ids of its bones, its min/max the bounds of its positions when it has vertices, its indices every face's indices, its textures those of its material, its name the assimp name |
| `Models.Model.ProcessMeshes` | utility/model/model.hpp:110-128 | one mesh pushed per mesh index of the node, the earlier meshes kept, the model invariant kept |
| `Models.Model.PushMesh` | utility/model/model.hpp:112-127 | the processed mesh appended with its name and indices, earlier meshes kept, the registry only grows, and the bounds still lie around every mesh |
| `Models.Model.ProcessNode` | utility/model/model.hpp:99-136 | the node's name registered, the mesh list only grows at its end, registry entries keep their ids, every new child link is a parent–child pair of the node's subtree with a registered child, entries outside the subtree keep their children, and the registry stays dense, loaded paths distinct and bounds around every mesh; for a tree with unique names whose names are not yet linked, the registry stays a forest (`Parented`) and lists the node as nobody's child |
| `Models.Model.AddChild` | utility/model/model.hpp:134 | exactly the child name is appended to the entry's children |
| `Models.Model.Push` | utility/model/model.hpp:113-127 | the mesh appended and the bounds merged with it; the registry, root and loaded textures unchanged |
| `Models.Model.ProcessChildren` | utility/model/model.hpp:130-135 | the child loop: the registry only grows, every new link is a pair of the subtree, entries outside the subtree keep their children, and with unique names every child is listed under the node in order while the registry stays a forest |
| `Models.Model.ProcessChild` | utility/model/model.hpp:132-134 | one child processed and appended to the node's entry, with the loop's invariant kept |
| `KeyFrames.PositionsOf` | utility/animation/keyframe.hpp:43-49 | one position key per assimp key, in order, with its converted vector and its time as stamp |
| `KeyFrames.RotationsOf` | utility/animation/keyframe.hpp:50-56 | one rotation key per assimp key, in order, with its converted quaternion and its time as stamp |
| `KeyFrames.ScalesOf` | utility/animation/keyframe.hpp:57-63 | one scale key per assimp key, in order, with its converted vector and its time as stamp |
| `KeyFrames.AdvanceBounds` | utility/animation/keyframe.hpp:163-183 | a cursor moves forward by at most one, exactly when it is inside the channel and the tick has reached the stamp it points at, and never beyond the size; the returned key index names a key |
| `KeyFrames.AdvanceAtEnd` | utility/animation/keyframe.hpp:165-167 | a cursor at the end of its channel stays there |
| `KeyFrames.AdvanceWaits` | utility/animation/keyframe.hpp:165-167 | a tick before the stamp at the cursor leaves the cursor where it is |
| `KeyFrames.AdvanceAsWrittenReadsPastEnd` | utility/animation/keyframe.hpp:165-166 | as written the stamp is read before the bound is checked: inside the channel both orders agree, at the end the read is past the last key, which a one-key channel reaches on its first call |
| `KeyFrames.ScaleFactorFacts` | utility/animation/keyframe.hpp:184-189 | the factor is 0 at the last key's stamp and 1 at the next key's, measures the tick's share of the gap, and lies in [0, 1] between two rising stamps |
| `KeyFrames.PositionAtKeys` | utility/animation/keyframe.hpp:118-127 | the interpolated translation passes through the keys: at a key's stamp it is that key's position, at the next stamp the next key's |
| `KeyFrames.AlignedFacts` | utility/animation/keyframe.hpp:140-143 | the second orientation is kept or negated, kept when its dot product with the first is non-negative, and its dot product with the first is non-negative afterwards |
| `KeyFrames.QDotNeg` | utility/animation/keyframe.hpp:142-143 | negating the second quaternion negates the dot product |
| `KeyFrames.RotationAtKeys` | utility/animation/keyframe.hpp:134-145 | between two keys the slerp runs from the key's orientation to the next one's, aligned, with factor 0 at the key's stamp and 1 at the next stamp |
| `KeyFrames.ScalingBoundary` | utility/animation/keyframe.hpp:151-156 | as written (`key >= size`) the last key is not treated as the end and the next key is read past the channel; below the last key both boundaries agree |
| `KeyFrames.ScalingAtKeys` | utility/animation/keyframe.hpp:147-162 | with the boundary of the other two channels, the interpolated scale passes through the keys |
| `KeyFrames.StepOk` | utility/animation/keyframe.hpp:163-183 | one `interpolate` keeps the keys and the cursors in range, and moves each cursor forward by at most one |
| `KeyFrames.ComposeOrdered` | utility/animation/keyframe.hpp:91-101 | the result multiplies the scaling, then the rotation, then the translation onto the identity, one factor per channel with keys and none for an empty channel |
| `KeyFrames.KeyFrame.constructor` | utility/animation/keyframe.hpp:37-64 | the three channels copied in order from the assimp channel, every cursor at 1 |
| `KeyFrames.KeyFrame.GetPositionIndex` | utility/animation/keyframe.hpp:163-169 | the position cursor advanced, the returned index one below it and naming a key, nothing else changed |
| `KeyFrames.KeyFrame.GetRotationIndex` | utility/animation/keyframe.hpp:170-176 | the rotation cursor advanced, the returned index one below it and naming a key, nothing else changed |
| `KeyFrames.KeyFrame.GetScaleIndex` | utility/animation/keyframe.hpp:177-183 | the scale cursor advanced, the returned index one below it and naming a key, nothing else changed |
| `KeyFrames.KeyFrame.InterpolatePosition` | utility/animation/keyframe.hpp:113-128 | the identity and no cursor move for an empty channel; otherwise the position cursor advanced and the translation of its key, interpolated towards the next |
| `KeyFrames.KeyFrame.InterpolateRotation` | utility/animation/keyframe.hpp:129-146 | the identity and no cursor move for an empty channel; otherwise the rotation cursor advanced and the key's rotation, or the slerp towards the aligned next orientation |
| `KeyFrames.KeyFrame.InterpolateScaling` | utility/animation/keyframe.hpp:147-162 | the identity and no cursor move for an empty channel; otherwise the scale cursor advanced and the scaling of its key, interpolated towards the next |
| `KeyFrames.KeyFrame.Interpolate` | utility/animation/keyframe.hpp:91-101 | the keyframe takes one `Step` at the tick and returns the composed transformation at the new cursors |
| `Animators.FirstIndex` | utility/animation/animation.hpp:22-26 | the first position holding the name, or none when no position holds it |
| `Animators.FirstIndexStep` | utility/animation/animation.hpp:25 | one more `emplace`: a name already present keeps its first position, a new one is found at the end |
| `Animators.EmplaceKeyFrame` | utility/animation/animation.hpp:25 | the channel's keyframe is made and entered under its node name unless that name is taken, in which case the table is unchanged; keyframes stay distinct |
| `Animators.MakeAnimation` | utility/animation/animation.hpp:16-27 | duration and tick rate copied; the names of the table are exactly the channel names; each holds a fresh valid keyframe built from the first channel with that name |
| `Animators.EmplacedNext` | utility/animation/animation.hpp:22-26 | one more channel emplaced: the table still holds, under each name met so far, a valid keyframe built from the first channel with that name, and nothing else |
| `Animators.EmplaceAnimation` | utility/animation/animator.hpp:104 | the animation is entered under its name unless the name is taken, in which case the table is unchanged; earlier entries are kept |
| `Animators.ReadAnimations` | utility/animation/animator.hpp:100-111 | the names of the table are exactly the animation names, each entry read from the first animation with that name, and the current animation is the last one read |
| `Animators.NextTickFacts` | utility/animation/animator.hpp:75-79 | the tick never goes back for a non-negative elapsed time and a positive rate, and stays put once it has reached the duration |
| `Animators.TicksStay` | utility/animation/animator.hpp:75 | once the tick has reached the duration no number of updates moves it |
| `Animators.TicksMonotone` | utility/animation/animator.hpp:78 | more updates never give an earlier tick |
| `Animators.TicksReachEnd` | utility/animation/animator.hpp:75-79 | enough updates to cover the remaining duration bring the tick to the duration, so the animation ends |
| `Animators.PrefixOfConcat` | utility/animation/animator.hpp:118-119 | a transformation multiplied from `a` then `x` starts with `a` |
| `Animators.OffsetTableMatches` | utility/animation/animator.hpp:119 | the bone offsets listed in id order give each bone's offset at its id, and the ids are distinct slots of the table |
| `Animators.AllCoveredKept` | utility/animation/animator.hpp:120-121 | later writes by sibling walks, all starting with the same parent product, keep the earlier children's subtrees covered |
| `Animators.AllCoveredNext` | utility/animation/animator.hpp:120-121 | one more child covered extends the covered prefix of the children |
| `Animators.ShapedWeaken` | utility/animation/animator.hpp:118-119 | a slot starting with a longer product starts with a shorter one |
| `Animators.CoveredWeaken` | utility/animation/animator.hpp:118-121 | a subtree covered with a longer product is covered with a shorter one |
| `Animators.CoveredKept` | utility/animation/animator.hpp:120-121 | writes that only put products starting with the same parent product keep a covered subtree covered |
| `Animators.DescendsTrans` | utility/animation/animator.hpp:120-121 | a walk reaching one set of slots followed by a walk reaching another, with the product extended, reaches their union; the second keeps every slot outside its own set |
| `Animators.ReachAllConcat` | utility/animation/animator.hpp:120-121 | the slots reachable from two runs of children are the union of those of each run |
| `Animators.ReachAllNext` | utility/animation/animator.hpp:120-121 | visiting one more child adds the slots reachable from it |
| `Animators.ReachUnder` | utility/animation/animator.hpp:114-122 | every slot reachable from a node is the slot of a bone no higher than the node |
| `Animators.ReachAllUnder` | utility/animation/animator.hpp:120-121 | every slot reachable from children lower than a height is the slot of a bone lower than it |
| `Animators.SlotNotReached` | utility/animation/animator.hpp:119-121 | the walk below a node never reaches the node's own slot |
| `Animators.Stepped` | utility/animation/animator.hpp:117-118 | the states after one node's visit keep the set of names and every other node's state, and all stay steppable |
| `Animators.StepOne` | utility/animation/animator.hpp:117-118 | a table whose keyframes keep their states except one stepped has the old states with that one replaced |
| `Animators.Walk` | utility/animation/animator.hpp:114-122 | the walk keeps the table's length and the names of the keyframes, whose states stay steppable |
| `Animators.WalkAll` | utility/animation/animator.hpp:120-121 | the walk over the children keeps the table's length and the names of the keyframes, whose states stay steppable |
| `Animators.WalkAllNext` | utility/animation/animator.hpp:120-121 | one more turn of the children loop is the walk over the children before it followed by that child's walk |
| `Animators.ChildrenUnder` | utility/animation/animator.hpp:120 | the children of a bone, and those of any prefix of its children list, are bones lower than it |
| `Animators.ReachNamesAllAt` | utility/animation/animator.hpp:120-121 | a name reachable from a run of children is reachable from one of them |
| `Animators.ReachNamesAllHas` | utility/animation/animator.hpp:120-121 | every name reachable from one of the children is reachable from the run |
| `Animators.ReachNamesChild` | utility/animation/animator.hpp:120-121 | the names reachable from a child are reachable from its parent |
| `Animators.ReachNamesUnder` | utility/animation/animator.hpp:114-122 | every name reachable from a node is a bone, lower than the node unless it is the node itself |
| `Animators.ReachNamesAllUnder` | utility/animation/animator.hpp:120-121 | every name reachable from children lower than a height is a bone lower than it |
| `Animators.ParentReached` | utility/animation/animator.hpp:120-121 | when no name is listed as a child twice, a bone reached below a node has its one parent reached too |
| `Animators.Comparable` | utility/animation/animator.hpp:120-121 | when no name is listed as a child twice, two bones reaching a common bone are one above the other |
| `Animators.ParentedBranching` | utility/animation/animator.hpp:120-121 | when no name is listed as a child twice, the subtrees below two different children of a node share no bone, so the walk meets every bone at most once |
| `Animators.WalkFrame` | utility/animation/animator.hpp:114-122 | the walk from a node leaves the slot and keyframe state of every bone it does not reach as they were |
| `Animators.WalkAllFrame` | utility/animation/animator.hpp:120-121 | the walk over children leaves the slot and keyframe state of every bone they do not reach as they were |
| `Animators.WalkSteps` | utility/animation/animator.hpp:117-121 | in a branching hierarchy the walk from a node steps the keyframe of every bone it reaches exactly once, and no other |
| `Animators.WalkAllSteps` | utility/animation/animator.hpp:120-121 | for children reaching disjoint bones, the walk over them steps exactly the keyframes they reach, once each |
| `Animators.ExactAgree` | utility/animation/animator.hpp:114-122 | whether the slots below a node hold their exact products depends only on the slots and keyframe states of the bones it reaches |
| `Animators.WalkExact` | utility/animation/animator.hpp:114-122 | in a branching hierarchy the walk from a node leaves every reachable slot at the product of the poses from the node down to that bone, from the keyframe states it starts with, times its offset |
| `Animators.WalkAllExact` | utility/animation/animator.hpp:120-121 | for children reaching disjoint bones, the walk over them leaves each child's subtree at its exact products |
| `Animators.ApartLast` | utility/animation/animator.hpp:120-121 | children reaching disjoint bones: those before the last do too, and none of them reaches a bone the last reaches |
| `Animators.LastAgree` | utility/animation/animator.hpp:120-121 | the walk over the children before the last leaves the keyframe states of the bones the last reaches as they were |
| `Animators.ExactStep` | utility/animation/animator.hpp:120-121 | the exact products of the earlier children and of the last one, each from the states before the loop, give all children's exact products |
| `Animators.ExactJoin` | utility/animation/animator.hpp:120-121 | the last child's walk, writing only what it reaches, keeps the earlier children exact, and its own exactness carries over to the states before the loop |
| `Animators.WalkCovered` | utility/animation/animator.hpp:114-122 | the walk from a node writes the node's slot with its product times its offset, leaves every reachable slot starting with that product, and writes only slots it reaches |
| `Animators.WalkAllCovered` | utility/animation/animator.hpp:120-121 | the walk over the children leaves every child's subtree covered with the parent product and writes only slots they reach |
| `Animators.CoveredJoin` | utility/animation/animator.hpp:120-121 | the children before the last covered, then the last one covered with a longer product, give all of them covered |
| `Animators.WalkFacts` | utility/animation/animator.hpp:114-122 | the walk from a node: its slot, covered subtree and untouched rest, and with `Parented` the exact products and one step for exactly the reachable keyframes |
| `Animators.WalkAllFacts` | utility/animation/animator.hpp:120-121 | the same for the walk over a node's children |
| `Animators.BoneBeforeParent` | utility/model/model.hpp:195-199 | a bone registered by a mesh before its parent node gets a lower id than that parent, and the registry is still slotted and layered |
| `Animators.Animator.constructor` | utility/animation/animator.hpp:87-113 | the model's bones and root; the animations read with the last one current; the tick at 0; one identity transformation per registered bone; the height witness kept |
| `Animators.Animator.SetCurAnimation` | utility/animation/animator.hpp:63-71 | an existing animation becomes current; an unknown name is an error and leaves the current animation; the tick is kept |
| `Animators.Animator.NodeTransform` | utility/animation/animator.hpp:117-118 | the node's keyframe of the current animation interpolated at the tick, or the identity when it has none; that keyframe's state takes one `Step` at the tick and every other keyframe is unchanged |
| `Animators.Animator.CalculateTransform` | utility/animation/animator.hpp:114-122 | the slots and keyframe states afterwards are the walk `Walk` from the node; the node's slot is the parent's product times the node's pose times its offset; every bone reachable from it gets a product starting with that, and slots of bones not reachable are untouched; when no name is listed as a child twice (`Parented`), every reachable slot holds exactly the product of the poses from the node down to that bone times its offset (`Exact`), and exactly the keyframes of the reachable bones are stepped, once each |
| `Animators.Animator.VisitNode` | utility/animation/animator.hpp:116-119 | the node's pose multiplied onto the parent's transformation is returned, the node's slot alone is written with it times the offset, and the node's keyframe alone is stepped |
| `Animators.Animator.WriteSlot` | utility/animation/animator.hpp:119 | exactly the one slot is written; the keyframe states are unchanged |
| `Animators.Animator.StatesOk` | utility/animation/animator.hpp:117-118 | every keyframe state of the current animation can be stepped |
| `Animators.Animator.CalculateChildren` | utility/animation/animator.hpp:120-121 | the slots and keyframe states afterwards are the walk `WalkAll` over the children; every child's subtree is covered with the node's product and only slots reachable from the children change; with `Parented`, every child's subtree holds its exact products and exactly the keyframes reachable from the children are stepped once |
| `Animators.Animator.VisitChildren` | utility/animation/animator.hpp:120-121 | the loop over the children computes `WalkAll` over them |
| `Animators.Animator.VisitChild` | utility/animation/animator.hpp:120-121 | one turn of the loop extends the walk over the children before it by the walk of the next child |
| `Animators.Animator.UpdateTransforms` | utility/animation/animator.hpp:72-80 | without a current animation an error and nothing changes; before its end the slots and keyframe states are the walk from the root with the identity at the old tick, every bone reachable from the root gets a product starting with the root's pose, slots of unreachable bones are untouched, and the tick advances by the elapsed time in ticks; with `Parented` every reachable slot holds its exact product and exactly the reachable keyframes are stepped once; at or after its end nothing changes |
| `Animators.Animator.AdvanceFrame` | utility/animation/animator.hpp:75-79 | before the end of the animation: the walk from the root with the identity at the old tick, with what it promises, then the tick advanced by the elapsed ticks |
| `Animators.Animator.Tick` | utility/animation/animator.hpp:78 | the tick advances by the elapsed ticks; the animation and the keyframe states are unchanged |

## Left out

- Floating point: numbers are exact reals. Rounding, `float`/`double` casts (such as the `float` cast of the slerp factor), infinities and `NaN` are not modelled. The two places where a `NaN` decides behaviour are written out: an octree whose root region has a `NaN` minimum has no root (`Err(NoRoot)` instead of the failed assertion), and a degenerate triangle, whose normal glm would normalise to `NaN`, has no effect on a body.
- `sqrt`, `glm::length` and `glm::normalize` are not computed. They are the parameter `norm`, constrained (`IsNorm`) to be non-negative with `norm(v)^2 == v . v`.
- glm matrix and quaternion algebra is symbolic. A transformation is a sequence of factors (`Translation`, `Rotation`, `Scaling`, `Matrix`), with product as concatenation and the identity as the empty sequence. `glm::slerp`, `glm::normalize` on quaternions and `glm::toMat4` are kept as factors, not evaluated.
- `std::to_string` (six decimals) and `std::stof` are the parameters `fmt` and `parse` of the converter. The round trip is proved for any `fmt`/`parse` pair where parsing undoes formatting and formatted numbers hold no `#`.
- The default-constructed `dst` of `convertString2Matrix` is the parameter `init`. The uninitialised `min`/`max` vectors of `processMesh` are `mn0`/`mx0`, taken to be zero in `ProcessMesh`.
- assimp import (`Importer::ReadFile`, the scene flags and their assertions) is not modelled. The scene, node tree, meshes, materials and animations are input values (`AiScene`, `AiNode`, `AiMesh`, `AiMaterial`, `AiAnimation`). `readAnimations` takes the already imported animations as the parameter `anims`.
- `TextureFromFile` and stb image loading (utility/model/model.hpp:280-313) are not modelled. They are the parameter `textureId`, which gives the GL texture id of a path.
- OpenGL buffers, shaders and SSBOs (opengl/mesh_gl.hpp, shader_gl.hpp, deliver_gl.hpp) are not modelled. Only `Vertex`, `MAX_BONE_INFLUENCE` and the index list are used, as plain data.
- The GLFW window, its callbacks and the key-polling thread of opengl/engine_gl.hpp are not modelled. sample/main.cpp and engine_gl.hpp are not part of this model.
- utility/physics/space.hpp is not part of this model: the whole file is commented out.
- The `collidingOffset(Collider_sphere&, ...)` overload (utility/physics/ground.hpp:110-124) is not modelled: it names a type that is not defined and has no effect.
- `print()`, `std::clog` and `std::cerr` output is not modelled.
- The `unordered_map` iteration order of `Ground::update` is not modelled. Bodies do not interact, so every order gives the same result, and `Update` states the result for every body.
- `Ground` uses `getMass()` and `getOctree()` on a `Collider`, and `Collider` defines neither. The world body is `Body`, with `Soul`'s kinematic fields, a `mass` and the body's box. The world's octree and meshes are given to the `Ground` constructor. The drag term divides by the mass, so the world members require a non-zero mass.
- The buoyancy term of `update` is commented out in the source (utility/physics/ground.hpp:34). `Buoyancy` is modelled on its own, and `Update` does not use it.
- `precision_` of `Ground` is never read and is not modelled.
- Move assignment operators, `swap`, copy deletions and destructors are not modelled. The move constructors of `Soul` and `Collider` are modelled (`Moved`).
- `Souls.Soul.Moved`, `Colliders.Collider.Moved`: `Soul` and `Collider` derive from `Animator` (utility/physics/soul.hpp:14, utility/physics/collider.hpp:12), and their constructors and move constructors build or move that base (soul.hpp:25-39, collider.hpp:26-42). The base is not modelled, so these constructors state only the physical fields. The animator is modelled on its own in `Animators`.
- `Grounds.TriangleNormal`, `Grounds.MeshOf`: `collidingOffset` dereferences the world box's tag as a mesh and reads three vertex indices at the triangle's tag (utility/physics/ground.hpp:79, 83-85) without any check. A missing tag, a tag past the mesh list, fewer than three indices after the tag, or an index past the vertex list would be undefined behaviour there; the model skips such a box instead. `Tagged` names what the source takes for granted, and `TriangleNormalTagged` shows that on such input only degenerate triangles are skipped.
- `Animators.MakeAnimation`, `Animators.ReadAnimations`, `Animators.Animator.constructor`: the `assert(ticksPerSecond_ != 0)` of the `Animation` constructor (utility/animation/animation.hpp:21) is the precondition `AnimationWf`, not an error result, because the constructors have no error path. assimp reports a rate of 0 when the file gives none, and such an asset aborts the source in a debug build; the model does not cover it.
- The octree's `getMin`/`getMax`/`getCentre`/`getSize` getters, `print` and move operations are not modelled. The two-argument `Animator` constructor (`setCurAnimation` after reading) is not modelled separately: it is `Animator` followed by `SetCurAnimation`.
- `Hierarchy` children are stored by name, not by address, in `Model` and `Animator`. Ids say nothing about the hierarchy: a mesh registers its bones before the walk reaches their nodes, so a child can have a lower id than its parent (`BoneBeforeParent`).
- `Animators.Animator.constructor` takes a ghost height witness (`Layered`). It exists exactly when following children never returns to a name. `calculateTransform` recurses without end on a name graph with a cycle, for example a node with a child of its own name. The model proves a witness for every model loaded from a node tree with unique names (`Model.constructor` gives `Linked`, then `TreeLayered`). A scene that repeats a node name is not covered.
- `Animators.Animator.CalculateTransform`, `Animators.Animator.CalculateChildren`, `Animators.Animator.UpdateTransforms`: the exact product in every reachable slot and the single step of every reachable keyframe are stated when no name is listed as a child twice (`Parented`), which `Model.constructor` gives for a node tree with unique names. When the hierarchy is a DAG and one bone is reachable along two paths, the later write wins and its keyframe is stepped more than once; the contracts then state only the walk `Walk` itself, that every reachable slot starts with the node's product, and that unreachable slots are untouched.
- `KeyFrames.KeyFrame.constructor` requires channel keys with strictly increasing times (`ChannelOk`). assimp supplies sorted keys, and `getScaleFactor` divides by the difference of two stamps.
- `setCurAnimation` with an unknown name throws from `at` after logging; `SetCurAnimation` returns `Err(NotFound)` and keeps the current animation. Likewise `updateTransforms` without a current animation fails its assertion and returns `Err(NoAnimation)`, `getCollider` of an unknown name returns `Err(NotFound)`, and a field `stof` cannot parse returns `Err(NotANumber)`.
- `Colliders.Collider.ProcessPosMove`: a horizontal move whose projected direction is zero (glm would normalise it to `NaN`) is excluded by `CanMove`, which reports exactly when a move is defined.
- `Models.Model.ProcessMeshes`: states how many meshes are pushed and that earlier meshes are kept, not the contents of each pushed mesh. `PushMesh` and `ProcessMesh` state those for one mesh.
- `Models.Model.ProcessNode`: states that the node is registered, that the registry invariant holds and that every new child link is a pair of the node's subtree. It does not state that every descendant is registered or that every pair of the subtree becomes a link.
- `Animators.Animator.constructor`: states each animation's duration and rate; `Animators.ReadAnimations` states which keyframes each animation holds.
- The bounds merge in `processNode` is modelled as intended (`Merged`), not as written; see Findings.
- The `KeyFrame` cursors check the bound before reading the stamp, and `interpolateScaling` uses the boundary `key >= size - 1`; both as intended, not as written; see Findings.

## Findings

| source | as written | input that shows it | evidently intended | confidence | as-written member | corrected member |
|---|---|---|---|---|---|---|
| utility/model/model.hpp:114-127 | the bounds of `meshes_[i]` are merged, where `i` counts the meshes of the current node, not of the whole model | a root node with one mesh `a` and a child node with one mesh `c`: the child's loop merges `meshes_[0]`, which is `a` again, so `c` lies outside the model bounds | merge the mesh just pushed, `meshes_.back()` | not executed | `Models.MergeAsWrittenMissesMesh` | `Models.MergedCovers` |
| utility/animation/keyframe.hpp:165-166 | the stamp at the cursor is read before `next < size` is checked (likewise at lines 172-173 and 179-180) | a channel with one key: the first call reads `positions_[1]`, past the end | check the bound first, then read the stamp | not executed | `KeyFrames.AdvanceAsWrittenReadsPastEnd` | `KeyFrames.AdvanceBounds` |
| utility/animation/keyframe.hpp:152 | the last-key test of `interpolateScaling` is `key >= scales_.size()`, which a valid key never meets | a scale index equal to `size - 1`: the next line reads `scales_[size]` | `key >= scales_.size() - 1`, as for positions and rotations | not executed | `KeyFrames.ScalingBoundary` | `KeyFrames.ScalingAtKeys` |
