/** Axis-aligned bounding boxes: closed intervals on each axis, with an
    optional tag naming what the box stands for (the source's `void *where`,
    which the engine points at a mesh or at a triangle's first index). */
module Boxes {
  import opened Linear
  import opened Results

  datatype AABB = AABB(min: Vec3, max: Vec3, where: Option<nat>)

  /** The stored centre, (min + max) * 0.5: it lies halfway between the corners. */
  function Centre(b: AABB): (c: Vec3)
    ensures Sub(c, b.min) == Sub(b.max, c)
  {
    Scale(Add(b.min, b.max), 0.5)
  }

  /** The stored size, max - min: min + size gives max back. */
  function Size(b: AABB): (s: Vec3)
    ensures Add(b.min, s) == b.max
  {
    Sub(b.max, b.min)
  }

  /** A box whose min is at most its max on every axis. */
  predicate Wf(b: AABB)
  {
    b.min.x <= b.max.x && b.min.y <= b.max.y && b.min.z <= b.max.z
  }

  /** Closed-interval overlap on all three axes. */
  predicate Intersects(a: AABB, b: AABB)
  {
    (a.min.x <= b.max.x && a.max.x >= b.min.x) &&
    (a.min.y <= b.max.y && a.max.y >= b.min.y) &&
    (a.min.z <= b.max.z && a.max.z >= b.min.z)
  }

  /** `a` encloses `b` on all three axes. */
  predicate Contains(a: AABB, b: AABB)
  {
    (a.min.x <= b.min.x && a.max.x >= b.max.x) &&
    (a.min.y <= b.min.y && a.max.y >= b.max.y) &&
    (a.min.z <= b.min.z && a.max.z >= b.max.z)
  }

  predicate ContainsPoint(a: AABB, p: Vec3)
  {
    (p.x >= a.min.x && p.x <= a.max.x) &&
    (p.y >= a.min.y && p.y <= a.max.y) &&
    (p.z >= a.min.z && p.z <= a.max.z)
  }

  /** The degenerate box [p, p]. */
  function PointBox(p: Vec3): AABB
  {
    AABB(p, p, None)
  }

  /** `AABB::getGlobalAABB`: the box moved by t, built with the default
      (null) tag, so the tag of the original is not carried over. */
  function GlobalAABB(b: AABB, t: Vec3): (r: AABB)
    ensures r.where == None
    ensures Size(r) == Size(b)
    ensures Sub(r.min, b.min) == t && Sub(r.max, b.max) == t
  {
    AABB(Add(b.min, t), Add(b.max, t), None)
  }

  lemma IntersectsSymmetric(a: AABB, b: AABB)
    ensures Intersects(a, b) <==> Intersects(b, a)
  {
  }

  /** Two non-empty boxes intersect exactly when they share a point; in
      particular boxes that only touch on a face intersect. */
  lemma IntersectsIffCommonPoint(a: AABB, b: AABB)
    requires Wf(a) && Wf(b)
    ensures Intersects(a, b) <==> exists p :: ContainsPoint(a, p) && ContainsPoint(b, p)
  {
    if Intersects(a, b) {
      var p := Vec3(Max(a.min.x, b.min.x), Max(a.min.y, b.min.y), Max(a.min.z, b.min.z));
      assert ContainsPoint(a, p) && ContainsPoint(b, p);
    }
  }

  lemma ContainsReflexive(a: AABB)
    ensures Contains(a, a)
  {
  }

  lemma ContainsTransitive(a: AABB, b: AABB, c: AABB)
    requires Contains(a, b) && Contains(b, c)
    ensures Contains(a, c)
  {
  }

  /** Containment implies intersection once the inner box is not inverted;
      an inverted box (min > max on some axis) can be contained without
      intersecting. */
  lemma ContainsIntersects(a: AABB, b: AABB)
    requires Wf(b) && Contains(a, b)
    ensures Intersects(a, b)
  {
  }

  lemma InvertedContainedNotIntersecting()
    ensures var a := AABB(Vec3(0.0, 0.0, 0.0), Vec3(4.0, 4.0, 4.0), None);
            var b := AABB(Vec3(3.0, 1.0, 1.0), Vec3(-1.0, 2.0, 2.0), None);
            !Wf(b) && Contains(a, b) && !Intersects(a, b)
  {
  }

  /** A box that meets a box inside `a` also meets `a`. */
  lemma IntersectsWithin(a: AABB, c: AABB, x: AABB)
    requires Contains(a, c) && Intersects(c, x)
    ensures Intersects(a, x)
  {
  }

  /** A box inside `c` that meets `r` forces `c` itself to meet `r`. */
  lemma ContainedIntersects(c: AABB, x: AABB, r: AABB)
    requires Contains(c, x) && Intersects(x, r)
    ensures Intersects(c, r)
  {
  }

  /** `Contains(a, b)` is set inclusion of the closed boxes, for a non-empty `b`. */
  lemma ContainsIffPoints(a: AABB, b: AABB)
    requires Wf(b)
    ensures Contains(a, b) <==> forall p :: ContainsPoint(b, p) ==> ContainsPoint(a, p)
  {
    if forall p :: ContainsPoint(b, p) ==> ContainsPoint(a, p) {
      assert ContainsPoint(b, b.min) && ContainsPoint(b, b.max);
      assert ContainsPoint(a, b.min) && ContainsPoint(a, b.max);
    }
  }

  /** `containsPoint(p)` is `contains` of the degenerate box [p, p]. */
  lemma ContainsPointIsContains(a: AABB, p: Vec3)
    ensures ContainsPoint(a, p) <==> Contains(a, PointBox(p))
  {
  }

  /** Moving both boxes by the same vector changes neither relation. */
  lemma GlobalInvariant(a: AABB, b: AABB, t: Vec3)
    ensures Intersects(GlobalAABB(a, t), GlobalAABB(b, t)) <==> Intersects(a, b)
    ensures Contains(GlobalAABB(a, t), GlobalAABB(b, t)) <==> Contains(a, b)
  {
  }

  /** [(0,0,0),(1,1,1)] misses [(2,2,2),(3,3,3)] but meets [(0.5,0.5,0.5),(1.5,1.5,1.5)]. */
  lemma UnitBoxExamples()
    ensures var unit := AABB(Vec3(0.0, 0.0, 0.0), Vec3(1.0, 1.0, 1.0), None);
            !Intersects(unit, AABB(Vec3(2.0, 2.0, 2.0), Vec3(3.0, 3.0, 3.0), None)) &&
            Intersects(unit, AABB(Vec3(0.5, 0.5, 0.5), Vec3(1.5, 1.5, 1.5), None)) &&
            Intersects(unit, AABB(Vec3(1.0, 0.0, 0.0), Vec3(2.0, 1.0, 1.0), None))
  {
  }
}
