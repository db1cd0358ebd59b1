/** The world (`Ground`): a static environment, indexed by an octree of
    mesh boxes, and a set of named bodies. Each update gives every body the
    world's forces, sweeps its box along the step it is about to take,
    resolves each triangle contact that the sweep finds, and integrates. */
module Grounds {
  import opened Linear
  import opened Results
  import opened Boxes
  import opened Octrees
  import opened Souls

  /** DECAY_RATE: the restitution of a bounce off a triangle. */
  const DecayRate: real := 0.9
  /** FRICTION_RATE */
  const FrictionRate: real := 0.9
  /** `gravityAcc()` */
  const Gravity: Vec3 := Vec3(0.0, -9.8, 0.0)
  /** The drag coefficient `update` passes to `resistance`. */
  const DragCoefficient: real := 0.1
  /** Below this squared tangential speed there is no friction direction. */
  const FrictionThreshold: real := 0.000001
  /** Above this speed drag grows with the square of the speed. */
  const TurbulentSpeed: real := 3.0

  /** The part of a body the world reads and writes: the Soul's position,
      velocity and inner (own) and outer (world) accelerations, its mass,
      and the root region of its own octree, in body coordinates. */
  datatype Body = Body(position: Vec3, velocity: Vec3, inner: Vec3, outer: Vec3, mass: real, box: AABB)

  /** An environment mesh: vertex positions, the index list (three per
      triangle) and the octree of triangle boxes, each tagged with the
      offset of its triangle's first index. */
  datatype Mesh = Mesh(vertices: seq<Vec3>, indices: seq<nat>, tree: Node)

  /** `buoyancy(rho, V, g)`: nothing when |g|, V or rho is zero, otherwise
      rho*V*|g| against g. */
  function Buoyancy(norm: Vec3 -> real, rho: real, volume: real, g: Vec3): Vec3
  {
    var gMag := norm(g);
    if gMag == 0.0 || volume == 0.0 || rho == 0.0 then Zero
    else Scale(Neg(Normalize(norm, g)), rho * volume * gMag)
  }

  /** `resistance(C, v)`: nothing when the speed or C is zero; otherwise
      against v, of magnitude C*s up to speed 3 and C*s*s above it. */
  function Resistance(norm: Vec3 -> real, c: real, v: Vec3): Vec3
  {
    var speed := norm(v);
    if speed == 0.0 || c == 0.0 then Zero
    else
      var mag := if speed > TurbulentSpeed then c * speed * speed else c * speed;
      Scale(Neg(Normalize(norm, v)), mag)
  }

  /** Scaling the negated unit vector is scaling the vector itself by a
      negative factor. */
  lemma ScaleNegUnit(u: Vec3, len: real, v: Vec3, k: real)
    requires Scale(u, len) == v && len != 0.0
    ensures Scale(Neg(u), k * len) == Scale(v, -k)
  {
    assert (-u.x) * (k * len) == (u.x * len) * (-k);
    assert (-u.y) * (k * len) == (u.y * len) * (-k);
    assert (-u.z) * (k * len) == (u.z * len) * (-k);
  }

  /** Buoyancy is zero exactly in the degenerate cases and is otherwise
      -rho*V*g, which has length rho*V*|g| against g. */
  lemma BuoyancyFacts(norm: Vec3 -> real, rho: real, volume: real, g: Vec3)
    requires IsNorm(norm)
    ensures g == Zero || volume == 0.0 || rho == 0.0 ==> Buoyancy(norm, rho, volume, g) == Zero
    ensures !(g == Zero || volume == 0.0 || rho == 0.0) ==> Buoyancy(norm, rho, volume, g) == Scale(g, -(rho * volume))
  {
    if !(g == Zero || volume == 0.0 || rho == 0.0) {
      assert norm(g) != 0.0;
      NormalizeBack(norm, g);
      ScaleNegUnit(Normalize(norm, g), norm(g), g, rho * volume);
    }
  }

  /** Drag is zero at rest or with no coefficient. */
  lemma ResistanceZero(norm: Vec3 -> real, c: real, v: Vec3)
    requires IsNorm(norm) && (v == Zero || c == 0.0)
    ensures Resistance(norm, c, v) == Zero
  {
    assert v == Zero ==> norm(v) == 0.0;
  }

  /** Up to speed 3 drag is -C*v, of length C*s. */
  lemma ResistanceLaminar(norm: Vec3 -> real, c: real, v: Vec3)
    requires norm(v) != 0.0 && c != 0.0 && norm(v) <= TurbulentSpeed
    ensures Resistance(norm, c, v) == Scale(v, -c)
  {
    var s := norm(v);
    var u := Normalize(norm, v);
    assert Resistance(norm, c, v) == Scale(Neg(u), c * s);
    NormalizeBack(norm, v);
    ScaleNegUnit(u, s, v, c);
  }

  /** Above speed 3 drag is -C*s*v, of length C*s*s. */
  lemma ResistanceTurbulent(norm: Vec3 -> real, c: real, v: Vec3)
    requires norm(v) != 0.0 && c != 0.0 && norm(v) > TurbulentSpeed
    ensures Resistance(norm, c, v) == Scale(v, -(c * norm(v)))
  {
    var s := norm(v);
    var u := Normalize(norm, v);
    assert Resistance(norm, c, v) == Scale(Neg(u), c * s * s);
    NormalizeBack(norm, v);
    ScaleNegUnit(u, s, v, c * s);
  }

  lemma ScaleSum(v: Vec3, p: real, q: real)
    ensures Add(Scale(v, p), Scale(v, q)) == Scale(v, p + q)
  {
  }

  lemma DotScaleRight(n: Vec3, v: Vec3, k: real)
    ensures Dot(n, Scale(v, k)) == k * Dot(n, v)
  {
  }

  lemma DotAdd(n: Vec3, a: Vec3, b: Vec3)
    ensures Dot(n, Add(a, b)) == Dot(n, a) + Dot(n, b)
  {
  }

  /** The in-plane part of v for a plane with unit normal n. */
  function Tangent(v: Vec3, n: Vec3): Vec3
  {
    Sub(v, Scale(n, Dot(n, v)))
  }

  lemma TangentOrthogonal(v: Vec3, n: Vec3)
    requires Dot(n, n) == 1.0
    ensures Dot(n, Tangent(v, n)) == 0.0
  {
    DotSubScale(n, v, Dot(n, v));
  }

  /** `frictionDir`: against the tangential velocity, or nothing when that
      is (nearly) zero. */
  function FrictionDir(norm: Vec3 -> real, tangent: Vec3): Vec3
    requires IsNorm(norm)
  {
    if Length2(tangent) > FrictionThreshold then
      assert norm(tangent) != 0.0;
      Neg(Normalize(norm, tangent))
    else Zero
  }

  /** The friction direction is a unit vector opposite the tangential
      velocity, or zero when the squared tangential speed is at most 1e-6;
      either way it lies in the contact plane. */
  lemma FrictionDirFacts(norm: Vec3 -> real, v: Vec3, n: Vec3)
    requires IsNorm(norm) && Dot(n, n) == 1.0
    ensures var t := Tangent(v, n);
            var f := FrictionDir(norm, t);
            Dot(n, f) == 0.0 &&
            (Length2(t) <= FrictionThreshold ==> f == Zero) &&
            (Length2(t) > FrictionThreshold ==> Dot(f, f) == 1.0 && Scale(f, -norm(t)) == t)
  {
    var t := Tangent(v, n);
    TangentOrthogonal(v, n);
    if Length2(t) > FrictionThreshold {
      assert norm(t) != 0.0;
      assert FrictionDir(norm, t) == Neg(Normalize(norm, t));
      FrictionAgainst(norm, t, n);
      NormalizeUnit(norm, t);
      DotNeg(Normalize(norm, t));
    }
  }

  /** Minus the normalised tangent stays in the plane and scales back to
      the tangent by minus its length. */
  lemma FrictionAgainst(norm: Vec3 -> real, t: Vec3, n: Vec3)
    requires norm(t) != 0.0 && Dot(n, t) == 0.0
    ensures var f := Neg(Normalize(norm, t));
            Dot(n, f) == 0.0 && Scale(f, -norm(t)) == t
  {
    var u := Normalize(norm, t);
    DotScaleRight(n, t, 1.0 / norm(t));
    NormalizeBack(norm, t);
    assert Dot(n, Neg(u)) == -Dot(n, u);
    assert Scale(Neg(u), -norm(t)) == Scale(u, norm(t));
  }

  lemma DotNeg(u: Vec3)
    ensures Dot(Neg(u), Neg(u)) == Dot(u, u)
  {
  }

  /** The response to one contact, given the unit normal n and the friction
      direction f: an inward outer or inner acceleration loses its normal
      part in its own channel and turns 0.9 of it into friction in the outer
      channel; an inward velocity is reflected with restitution 0.9. */
  function Respond(b: Body, n: Vec3, f: Vec3): Body
  {
    var iacc := Dot(n, b.inner);
    var oacc := Dot(n, b.outer);
    var vel := Dot(n, b.velocity);
    var outer1 := if oacc < 0.0 then Sub(Add(b.outer, Scale(f, Abs(oacc) * FrictionRate)), Scale(n, oacc)) else b.outer;
    var outer2 := if iacc < 0.0 then Add(outer1, Scale(f, Abs(iacc) * FrictionRate)) else outer1;
    var inner := if iacc < 0.0 then Sub(b.inner, Scale(n, iacc)) else b.inner;
    var velocity := if vel < 0.0 then Sub(b.velocity, Scale(n, (1.0 + DecayRate) * vel)) else b.velocity;
    b.(outer := outer2, inner := inner, velocity := velocity)
  }

  /** One triangle contact with unit normal n. */
  function Contact(norm: Vec3 -> real, b: Body, n: Vec3): Body
    requires IsNorm(norm)
  {
    Respond(b, n, FrictionDir(norm, Tangent(b.velocity, n)))
  }

  /** An inward velocity leaves with its normal part reflected and scaled
      by 0.9 and its tangential part unchanged; an outward one is kept. */
  lemma RespondVelocity(b: Body, n: Vec3, f: Vec3)
    requires Dot(n, n) == 1.0
    ensures var vel := Dot(n, b.velocity);
            var r := Respond(b, n, f);
            (vel < 0.0 ==> Dot(n, r.velocity) == -DecayRate * vel && Tangent(r.velocity, n) == Tangent(b.velocity, n)) &&
            (vel >= 0.0 ==> r.velocity == b.velocity)
  {
    var vel := Dot(n, b.velocity);
    if vel < 0.0 {
      var k := (1.0 + DecayRate) * vel;
      DotSubScale(n, b.velocity, k);
      var w := Sub(b.velocity, Scale(n, k));
      assert Dot(n, w) == -DecayRate * vel;
      assert Tangent(w, n) == Tangent(b.velocity, n);
    }
  }

  /** An inward inner acceleration loses exactly its normal part. */
  lemma RespondInner(b: Body, n: Vec3, f: Vec3)
    requires Dot(n, n) == 1.0
    ensures var iacc := Dot(n, b.inner);
            var r := Respond(b, n, f);
            (iacc < 0.0 ==> Dot(n, r.inner) == 0.0 && r.inner == Sub(b.inner, Scale(n, iacc))) &&
            (iacc >= 0.0 ==> r.inner == b.inner)
  {
    DotSubScale(n, b.inner, Dot(n, b.inner));
  }

  /** The outer acceleration loses its inward normal part, and gains
      friction along f of 0.9 times the removed inward parts of both
      accelerations. */
  lemma RespondOuter(b: Body, n: Vec3, f: Vec3)
    ensures var iacc := Dot(n, b.inner);
            var oacc := Dot(n, b.outer);
            var friction := (if oacc < 0.0 then Abs(oacc) * FrictionRate else 0.0) +
                            (if iacc < 0.0 then Abs(iacc) * FrictionRate else 0.0);
            Respond(b, n, f).outer == Add(Sub(b.outer, Scale(n, if oacc < 0.0 then oacc else 0.0)), Scale(f, friction))
  {
    OuterCombine(b.outer, n, f, Dot(n, b.outer), Dot(n, b.inner));
  }

  lemma OuterCombine(o: Vec3, n: Vec3, f: Vec3, oacc: real, iacc: real)
    ensures var outer1 := if oacc < 0.0 then Sub(Add(o, Scale(f, Abs(oacc) * FrictionRate)), Scale(n, oacc)) else o;
            var outer2 := if iacc < 0.0 then Add(outer1, Scale(f, Abs(iacc) * FrictionRate)) else outer1;
            var friction := (if oacc < 0.0 then Abs(oacc) * FrictionRate else 0.0) +
                            (if iacc < 0.0 then Abs(iacc) * FrictionRate else 0.0);
            outer2 == Add(Sub(o, Scale(n, if oacc < 0.0 then oacc else 0.0)), Scale(f, friction))
  {
    var fo := if oacc < 0.0 then Abs(oacc) * FrictionRate else 0.0;
    var fi := if iacc < 0.0 then Abs(iacc) * FrictionRate else 0.0;
    ScaleSum(f, fo, fi);
    ScaleByZero(n);
    ScaleByZero(f);
  }

  lemma ScaleByZero(v: Vec3)
    ensures Scale(v, 0.0) == Zero
  {
  }

  /** With f in the contact plane, the outer acceleration's normal part ends
      at zero when it pointed inward and is otherwise kept. */
  lemma RespondOuterNormal(b: Body, n: Vec3, f: Vec3)
    requires Dot(n, n) == 1.0 && Dot(n, f) == 0.0
    ensures var oacc := Dot(n, b.outer);
            Dot(n, Respond(b, n, f).outer) == (if oacc < 0.0 then 0.0 else oacc)
  {
    RespondOuter(b, n, f);
    var iacc := Dot(n, b.inner);
    var oacc := Dot(n, b.outer);
    var friction := (if oacc < 0.0 then Abs(oacc) * FrictionRate else 0.0) +
                    (if iacc < 0.0 then Abs(iacc) * FrictionRate else 0.0);
    var removed := Sub(b.outer, Scale(n, if oacc < 0.0 then oacc else 0.0));
    DotSubScale(n, b.outer, if oacc < 0.0 then oacc else 0.0);
    DotScaleRight(n, f, friction);
    DotAdd(n, removed, Scale(f, friction));
  }

  /** A contact that nothing pushes into changes nothing. */
  lemma RespondUntouched(b: Body, n: Vec3, f: Vec3)
    requires Dot(n, b.inner) >= 0.0 && Dot(n, b.outer) >= 0.0 && Dot(n, b.velocity) >= 0.0
    ensures Respond(b, n, f) == b
  {
  }

  /** The unit normal of a stored triangle box: None when the tag is missing
      or does not name a triangle of the mesh, or when the triangle is
      degenerate (glm would normalise a zero cross product to NaN, and every
      comparison against a NaN component is false, so nothing changes). */
  function TriangleNormal(norm: Vec3 -> real, mesh: Mesh, tri: AABB): Option<Vec3>
  {
    if tri.where.None? || tri.where.value + 2 >= |mesh.indices| then None
    else
      var p := tri.where.value;
      var i0, i1, i2 := mesh.indices[p], mesh.indices[p + 1], mesh.indices[p + 2];
      if i0 >= |mesh.vertices| || i1 >= |mesh.vertices| || i2 >= |mesh.vertices| then None
      else
        var c := Cross(Sub(mesh.vertices[i1], mesh.vertices[i0]), Sub(mesh.vertices[i2], mesh.vertices[i0]));
        if norm(c) == 0.0 then None else Some(Normalize(norm, c))
  }

  /** What `collidingOffset` takes for granted about a triangle box: its
      tag names three indices of the mesh, each naming a vertex. */
  predicate Tagged(mesh: Mesh, tri: AABB)
  {
    tri.where.Some? && tri.where.value + 2 < |mesh.indices| &&
    mesh.indices[tri.where.value] < |mesh.vertices| &&
    mesh.indices[tri.where.value + 1] < |mesh.vertices| &&
    mesh.indices[tri.where.value + 2] < |mesh.vertices|
  }

  /** A triangle box tagged as the source expects is skipped exactly when
      its triangle is degenerate. */
  lemma TriangleNormalTagged(norm: Vec3 -> real, mesh: Mesh, tri: AABB)
    requires Tagged(mesh, tri)
    ensures var p := tri.where.value;
            var v0, v1, v2 := mesh.vertices[mesh.indices[p]], mesh.vertices[mesh.indices[p + 1]],
                              mesh.vertices[mesh.indices[p + 2]];
            TriangleNormal(norm, mesh, tri).None? <==> norm(Cross(Sub(v1, v0), Sub(v2, v0))) == 0.0
  {
  }

  lemma TriangleNormalUnit(norm: Vec3 -> real, mesh: Mesh, tri: AABB)
    requires IsNorm(norm) && TriangleNormal(norm, mesh, tri).Some?
    ensures Dot(TriangleNormal(norm, mesh, tri).value, TriangleNormal(norm, mesh, tri).value) == 1.0
  {
    var p := tri.where.value;
    var i0, i1, i2 := mesh.indices[p], mesh.indices[p + 1], mesh.indices[p + 2];
    var c := Cross(Sub(mesh.vertices[i1], mesh.vertices[i0]), Sub(mesh.vertices[i2], mesh.vertices[i0]));
    NormalizeUnit(norm, c);
  }

  /** One triangle of `collidingOffset`. */
  function TriangleStep(norm: Vec3 -> real, mesh: Mesh, b: Body, tri: AABB): Body
    requires IsNorm(norm)
  {
    match TriangleNormal(norm, mesh, tri)
    case None => b
    case Some(n) => Contact(norm, b, n)
  }

  /** `collidingOffset`: the triangles resolved one after another, each
      seeing the body as the previous one left it. */
  function Offset(norm: Vec3 -> real, mesh: Mesh, b: Body, tris: seq<AABB>): Body
    requires IsNorm(norm)
    decreases |tris|
  {
    if tris == [] then b
    else TriangleStep(norm, mesh, Offset(norm, mesh, b, tris[..|tris| - 1]), tris[|tris| - 1])
  }

  /** Resolving two runs of triangles is resolving the second from where
      the first left the body. */
  lemma {:induction false} OffsetAppend(norm: Vec3 -> real, mesh: Mesh, b: Body, s: seq<AABB>, t: seq<AABB>)
    requires IsNorm(norm)
    ensures Offset(norm, mesh, b, s + t) == Offset(norm, mesh, Offset(norm, mesh, b, s), t)
    decreases |t|
  {
    if t == [] {
      assert s + t == s;
    } else {
      var t' := t[..|t| - 1];
      assert (s + t)[..|s + t| - 1] == s + t';
      assert (s + t)[|s + t| - 1] == t[|t| - 1];
      OffsetAppend(norm, mesh, b, s, t');
    }
  }

  /** The mesh a world box stands for, if its tag names one. */
  function MeshOf(meshes: seq<Mesh>, hit: AABB): Option<Mesh>
  {
    if hit.where.Some? && hit.where.value < |meshes| then Some(meshes[hit.where.value]) else None
  }

  /** One world box: the mesh's triangles the swept box meets. */
  function HitStep(norm: Vec3 -> real, meshes: seq<Mesh>, b: Body, hit: AABB, sweep: AABB): Body
    requires IsNorm(norm)
  {
    match MeshOf(meshes, hit)
    case None => b
    case Some(mesh) => Offset(norm, mesh, b, Query(mesh.tree, sweep))
  }

  /** Every world box the sweep meets, in query order. */
  function Resolve(norm: Vec3 -> real, meshes: seq<Mesh>, b: Body, hits: seq<AABB>, sweep: AABB): Body
    requires IsNorm(norm)
    decreases |hits|
  {
    if hits == [] then b
    else HitStep(norm, meshes, Resolve(norm, meshes, b, hits[..|hits| - 1], sweep), hits[|hits| - 1], sweep)
  }

  lemma {:induction false} ResolveAppend(norm: Vec3 -> real, meshes: seq<Mesh>, b: Body, s: seq<AABB>, t: seq<AABB>, sweep: AABB)
    requires IsNorm(norm)
    ensures Resolve(norm, meshes, b, s + t, sweep) == Resolve(norm, meshes, Resolve(norm, meshes, b, s, sweep), t, sweep)
    decreases |t|
  {
    if t == [] {
      assert s + t == s;
    } else {
      var t' := t[..|t| - 1];
      assert (s + t)[..|s + t| - 1] == s + t';
      assert (s + t)[|s + t| - 1] == t[|t| - 1];
      ResolveAppend(norm, meshes, b, s, t', sweep);
    }
  }

  /** The outer acceleration at the start of a step: gravity plus drag over
      mass; whatever the channel held before is overwritten. */
  function WorldAcc(norm: Vec3 -> real, b: Body): Vec3
    requires b.mass != 0.0
  {
    Add(Gravity, Scale(Resistance(norm, DragCoefficient, b.velocity), 1.0 / b.mass))
  }

  /** The predicted displacement (v0 + v1) * dt * 0.5, with v1 = v0 + a*dt. */
  function Predicted(v0: Vec3, acc: Vec3, dt: real): Vec3
  {
    Scale(Scale(Add(v0, Add(v0, Scale(acc, dt))), dt), 0.5)
  }

  /** The trapezoidal prediction is the constant-acceleration displacement
      v0*dt + a*dt*dt/2. */
  lemma PredictedKinematics(v0: Vec3, acc: Vec3, dt: real)
    ensures Predicted(v0, acc, dt) == Add(Scale(v0, dt), Scale(acc, dt * dt * 0.5))
  {
    assert (v0.x + (v0.x + acc.x * dt)) * dt * 0.5 == v0.x * dt + acc.x * (dt * dt * 0.5);
    assert (v0.y + (v0.y + acc.y * dt)) * dt * 0.5 == v0.y * dt + acc.y * (dt * dt * 0.5);
    assert (v0.z + (v0.z + acc.z * dt)) * dt * 0.5 == v0.z * dt + acc.z * (dt * dt * 0.5);
  }

  /** The integration at the end of a step: velocity first, then position
      with the new velocity, then the inner acceleration decays. */
  function Integrate(norm: Vec3 -> real, b: Body, dt: real): Body
  {
    var v := Add(b.velocity, Scale(Add(b.inner, b.outer), dt));
    b.(velocity := v, position := Add(b.position, Scale(v, dt)), inner := Decay(norm, b.inner))
  }

  /** Semi-implicit Euler: the position moves by v*dt + a*dt*dt, not by the
      trapezoidal v*dt + a*dt*dt/2 of the prediction. */
  lemma IntegrateDisplacement(norm: Vec3 -> real, b: Body, dt: real)
    ensures var r := Integrate(norm, b, dt);
            var acc := Add(b.inner, b.outer);
            Sub(r.velocity, b.velocity) == Scale(acc, dt) &&
            Sub(r.position, b.position) == Add(Scale(b.velocity, dt), Scale(acc, dt * dt))
  {
    var acc := Add(b.inner, b.outer);
    assert (b.velocity.x + acc.x * dt) * dt == b.velocity.x * dt + acc.x * (dt * dt);
    assert (b.velocity.y + acc.y * dt) * dt == b.velocity.y * dt + acc.y * (dt * dt);
    assert (b.velocity.z + acc.z * dt) * dt == b.velocity.z * dt + acc.z * (dt * dt);
  }

  /** The box swept by the predicted step, as `getDeltaAABB` builds it. */
  function Sweep(b: Body, dt: real): AABB
  {
    DeltaAABB(b.box, b.position, Predicted(b.velocity, Add(b.inner, b.outer), dt))
  }

  /** One body's share of `update`. */
  function Advance(norm: Vec3 -> real, world: Node, meshes: seq<Mesh>, b: Body, dt: real): Body
    requires IsNorm(norm) && b.mass != 0.0
  {
    var b1 := b.(outer := WorldAcc(norm, b));
    var sweep := Sweep(b1, dt);
    Integrate(norm, Resolve(norm, meshes, b1, Query(world, sweep), sweep), dt)
  }

  /** The outer acceleration a body brings into a step has no effect on it. */
  lemma AdvanceForgetsOuter(norm: Vec3 -> real, world: Node, meshes: seq<Mesh>, b: Body, o: Vec3, dt: real)
    requires IsNorm(norm) && b.mass != 0.0
    ensures Advance(norm, world, meshes, b.(outer := o), dt) == Advance(norm, world, meshes, b, dt)
  {
    assert b.(outer := o).(outer := WorldAcc(norm, b)) == b.(outer := WorldAcc(norm, b));
  }

  /** A body at rest starts its step with gravity alone. */
  lemma WorldAccAtRest(norm: Vec3 -> real, b: Body)
    requires IsNorm(norm) && b.mass != 0.0 && b.velocity == Zero
    ensures WorldAcc(norm, b) == Gravity
  {
    assert norm(b.velocity) == 0.0;
    assert Resistance(norm, DragCoefficient, b.velocity) == Zero;
    ZeroScaled(1.0 / b.mass);
  }

  lemma ZeroScaled(k: real)
    ensures Scale(Zero, k) == Zero
  {
    assert 0.0 * k == 0.0;
  }

  /** With no world box in the sweep, the step is pure integration. */
  lemma AdvanceFree(norm: Vec3 -> real, world: Node, meshes: seq<Mesh>, b: Body, dt: real)
    requires IsNorm(norm) && b.mass != 0.0
    requires Query(world, Sweep(b.(outer := WorldAcc(norm, b)), dt)) == []
    ensures Advance(norm, world, meshes, b, dt) == Integrate(norm, b.(outer := WorldAcc(norm, b)), dt)
  {
  }

  /** The start of a step: the outer channel reset to gravity plus drag,
      and the swept box of the predicted displacement. */
  method Prepare(norm: Vec3 -> real, b: Body, dt: real) returns (r: Body, sweep: AABB)
    requires b.mass != 0.0
    ensures r == b.(outer := WorldAcc(norm, b)) && sweep == Sweep(r, dt)
  {
    r := b.(outer := Gravity);
    r := r.(outer := Add(r.outer, Scale(Resistance(norm, DragCoefficient, r.velocity), 1.0 / r.mass)));
    var v0 := r.velocity;
    var v := Add(v0, Scale(Add(r.inner, r.outer), dt));
    var prePosition := Scale(Scale(Add(v0, v), dt), 0.5);
    sweep := DeltaAABB(r.box, r.position, prePosition);
  }

  /** The end of a step. */
  method IntegrateStep(norm: Vec3 -> real, b: Body, dt: real) returns (r: Body)
    ensures r == Integrate(norm, b, dt)
  {
    r := b.(velocity := Add(b.velocity, Scale(Add(b.inner, b.outer), dt)));
    r := r.(position := Add(r.position, Scale(r.velocity, dt)));
    r := r.(inner := Decay(norm, r.inner));
  }

  class Ground {
    var bodies: map<string, Body>
    var world: Node
    var meshes: seq<Mesh>

    /** `Ground(entity)`: the environment's octree and meshes, no bodies. */
    constructor (world: Node, meshes: seq<Mesh>)
      ensures this.bodies == map[] && this.world == world && this.meshes == meshes
    {
      bodies := map[];
      this.world := world;
      this.meshes := meshes;
    }

    /** `addCollider`: `emplace`, so a name already present keeps its body. */
    method AddCollider(name: string, b: Body)
      modifies this
      ensures bodies == if name in old(bodies) then old(bodies) else old(bodies)[name := b]
      ensures world == old(world) && meshes == old(meshes)
    {
      if name !in bodies {
        bodies := bodies[name := b];
      }
    }

    /** `getCollider`: `at`, which throws for an unknown name. */
    function GetCollider(name: string): (r: Result<Body>)
      reads this
      ensures r.Ok? <==> name in bodies
      ensures r.Ok? ==> r.value == bodies[name]
      ensures r.Err? ==> r.error == NotFound
    {
      if name in bodies then Ok(bodies[name]) else Err(NotFound)
    }

    /** `update(deltaTime)`: every body advanced by one step. Bodies do not
        see each other, so the map's iteration order does not matter. */
    method Update(norm: Vec3 -> real, dt: real)
      requires IsNorm(norm)
      requires forall k | k in bodies :: bodies[k].mass != 0.0
      modifies this
      ensures bodies.Keys == old(bodies).Keys
      ensures forall k | k in bodies :: bodies[k] == Advance(norm, world, meshes, old(bodies)[k], dt)
      ensures world == old(world) && meshes == old(meshes)
    {
      ghost var start := bodies;
      var todo := bodies.Keys;
      while todo != {}
        invariant todo <= start.Keys && bodies.Keys == start.Keys
        invariant world == old(world) && meshes == old(meshes)
        invariant forall k | k in bodies ::
                    if k in todo then bodies[k] == start[k]
                    else bodies[k] == Advance(norm, world, meshes, start[k], dt)
        decreases todo
      {
        var k :| k in todo;
        var r := StepBody(norm, bodies[k], dt);
        bodies := bodies[k := r];
        todo := todo - {k};
      }
    }

    /** The loop body of `update` for one body. */
    method StepBody(norm: Vec3 -> real, b: Body, dt: real) returns (r: Body)
      requires IsNorm(norm) && b.mass != 0.0
      ensures r == Advance(norm, world, meshes, b, dt)
    {
      var sweep;
      r, sweep := Prepare(norm, b, dt);
      var hits := QueryNode(world, sweep);
      r := ResolveHits(norm, r, hits, sweep);
      r := IntegrateStep(norm, r, dt);
    }

    /** The world boxes of the sweep, in query order. */
    method ResolveHits(norm: Vec3 -> real, b: Body, hits: seq<AABB>, sweep: AABB) returns (r: Body)
      requires IsNorm(norm)
      ensures r == Resolve(norm, meshes, b, hits, sweep)
    {
      r := b;
      var i := 0;
      while i < |hits|
        invariant 0 <= i <= |hits|
        invariant r == Resolve(norm, meshes, b, hits[..i], sweep)
      {
        r := CollidingOffset(norm, r, hits[i], sweep);
        assert hits[..i + 1][..i] == hits[..i];
        i := i + 1;
      }
      assert hits[..i] == hits;
    }

    /** `collidingOffset(collider, aabb, deltaAABB)`. */
    method CollidingOffset(norm: Vec3 -> real, b: Body, hit: AABB, sweep: AABB) returns (r: Body)
      requires IsNorm(norm)
      ensures r == HitStep(norm, meshes, b, hit, sweep)
    {
      r := b;
      if hit.where.None? || hit.where.value >= |meshes| {
        return;
      }
      var mesh := meshes[hit.where.value];
      var triangles := QueryNode(mesh.tree, sweep);
      var i := 0;
      while i < |triangles|
        invariant 0 <= i <= |triangles|
        invariant r == Offset(norm, mesh, b, triangles[..i])
      {
        var normal := TriangleNormal(norm, mesh, triangles[i]);
        if normal.Some? {
          r := ContactStep(norm, r, normal.value);
        }
        assert triangles[..i + 1][..i] == triangles[..i];
        i := i + 1;
      }
      assert triangles[..i] == triangles;
    }

    /** The body of the triangle loop, once the normal is known. */
    method ContactStep(norm: Vec3 -> real, b: Body, normal: Vec3) returns (r: Body)
      requires IsNorm(norm)
      ensures r == Contact(norm, b, normal)
    {
      var vel := Dot(normal, b.velocity);
      var vPerpendicular := Sub(b.velocity, Scale(normal, vel));
      var frictionDir := Zero;
      if Length2(vPerpendicular) > FrictionThreshold {
        frictionDir := Neg(Normalize(norm, vPerpendicular));
      }
      assert frictionDir == FrictionDir(norm, Tangent(b.velocity, normal));
      r := Apply(b, normal, frictionDir);
    }

    /** The three conditional updates of one contact. */
    method Apply(b: Body, normal: Vec3, frictionDir: Vec3) returns (r: Body)
      ensures r == Respond(b, normal, frictionDir)
    {
      r := b;
      var iacc := Dot(normal, r.inner);
      var oacc := Dot(normal, r.outer);
      var vel := Dot(normal, r.velocity);
      if oacc < 0.0 {
        r := r.(outer := Add(r.outer, Scale(frictionDir, Abs(oacc) * FrictionRate)));
        r := r.(outer := Sub(r.outer, Scale(normal, oacc)));
      }
      if iacc < 0.0 {
        r := r.(outer := Add(r.outer, Scale(frictionDir, Abs(iacc) * FrictionRate)));
        r := r.(inner := Sub(r.inner, Scale(normal, iacc)));
      }
      if vel < 0.0 {
        r := r.(velocity := Sub(r.velocity, Scale(normal, (1.0 + DecayRate) * vel)));
      }
    }
  }
}
