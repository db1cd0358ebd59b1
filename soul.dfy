/** A self-propelled body (`Soul`): a position, an orientation basis, a
    velocity, and two accelerations. The inner one is the body's own drive,
    raised by boosts and decaying over time; the outer one is what the world
    applies. */
module Souls {
  import opened Linear
  import opened Mappings

  /** SOUL_INNER_ACCELERATION_INCREMENT, SOUL_INNER_ACCELERATION_REDUCTION_RATE
      and SOUL_MAX_INNER_ACCELERATION. */
  const Increment: real := 1.0
  const ReductionRate: real := 0.99
  const MaxInner: real := 15.0

  /** The push direction `processBoost` builds by adding to or subtracting
      from a zero vector: front or right flattened to the x-z plane for the
      horizontal directions, plus or minus the world y axis for the vertical
      ones, and nothing for every other input. */
  function BoostDirection(front: Vec3, right: Vec3, d: Mapping): Vec3
  {
    match d
    case Forward1 => Add(Zero, Vec3(front.x, 0.0, front.z))
    case Backward1 => Sub(Zero, Vec3(front.x, 0.0, front.z))
    case Left1 => Sub(Zero, Vec3(right.x, 0.0, right.z))
    case Right1 => Add(Zero, Vec3(right.x, 0.0, right.z))
    case Up1 => Add(Zero, Vec3(0.0, 1.0, 0.0))
    case Down1 => Add(Zero, Vec3(0.0, -1.0, 0.0))
    case _ => Zero
  }

  /** The inner acceleration after `processBoost`: a unit step along the
      push direction, then clamped back to length MaxInner if it got longer. */
  function Boost(norm: Vec3 -> real, front: Vec3, right: Vec3, inner: Vec3, d: Mapping): Vec3
  {
    var m := BoostDirection(front, right, d);
    if norm(m) > 0.0 then
      Clamp(norm, Add(inner, Scale(Normalize(norm, m), Increment)))
    else inner
  }

  /** Shrinks a vector longer than MaxInner back to length MaxInner. */
  function Clamp(norm: Vec3 -> real, a: Vec3): Vec3
  {
    if norm(a) > MaxInner then Scale(Normalize(norm, a), MaxInner) else a
  }

  /** The inner acceleration after `processDecay`. */
  function Decay(norm: Vec3 -> real, inner: Vec3): Vec3
  {
    if norm(inner) > 0.0 then Scale(inner, ReductionRate) else inner
  }

  /** K decays in a row. */
  function DecayTimes(norm: Vec3 -> real, inner: Vec3, k: nat): Vec3
    decreases k
  {
    if k == 0 then inner else DecayTimes(norm, Decay(norm, inner), k - 1)
  }

  function Pow(r: real, k: nat): real
  {
    if k == 0 then 1.0 else r * Pow(r, k - 1)
  }

  /** The horizontal directions ignore the y parts of front and right, and
      the vertical ones ignore the basis altogether. */
  lemma BoostDirectionFlat(front: Vec3, right: Vec3, d: Mapping)
    requires IsHorizontal(d)
    ensures BoostDirection(front, right, d).y == 0.0
    ensures BoostDirection(front, right, d) == BoostDirection(Vec3(front.x, 0.0, front.z), Vec3(right.x, 0.0, right.z), d)
  {
  }

  /** Backward and left are the opposites of forward and right. */
  lemma BoostDirectionOpposite(front: Vec3, right: Vec3)
    ensures BoostDirection(front, right, Backward1) == Neg(BoostDirection(front, right, Forward1))
    ensures BoostDirection(front, right, Left1) == Neg(BoostDirection(front, right, Right1))
  {
  }

  /** The vertical directions are the world y axis, whatever the basis. */
  lemma BoostDirectionVertical(front: Vec3, right: Vec3)
    ensures BoostDirection(front, right, Up1) == Vec3(0.0, 1.0, 0.0)
    ensures BoostDirection(front, right, Down1) == Vec3(0.0, -1.0, 0.0)
  {
  }

  /** A non-movement input, or a push direction of length zero (front
      pointing straight up, say), leaves the inner acceleration unchanged. */
  lemma BoostIdle(norm: Vec3 -> real, front: Vec3, right: Vec3, inner: Vec3, d: Mapping)
    requires IsNorm(norm)
    requires (!IsHorizontal(d) && !IsVertical(d)) || BoostDirection(front, right, d) == Zero
    ensures Boost(norm, front, right, inner, d) == inner
  {
    assert BoostDirection(front, right, d) == Zero;
  }

  /** A vector whose squared length is 225 has length 15. */
  lemma NormFifteen(norm: Vec3 -> real, u: Vec3)
    requires IsNorm(norm)
    requires Dot(u, u) == 225.0
    ensures norm(u) == 15.0
  {
    var n := norm(u);
    assert n >= 0.0 && n * n == 225.0;
    if n < 15.0 {
      if n > 0.0 { MulPos(n, 15.0 - n); }
    } else if n > 15.0 {
      MulPos(n - 15.0, n + 15.0);
    }
  }

  /** After the clamp the vector is at most MaxInner long; it is untouched
      when it already was, and otherwise MaxInner long and pointing the same
      way as before. */
  lemma ClampFacts(norm: Vec3 -> real, a: Vec3)
    requires IsNorm(norm)
    ensures var r := Clamp(norm, a);
            norm(r) <= MaxInner &&
            (norm(a) <= MaxInner ==> r == a) &&
            (norm(a) > MaxInner ==> norm(r) == MaxInner && Scale(r, norm(a)) == Scale(a, MaxInner))
  {
    if norm(a) > MaxInner {
      NormalizeUnit(norm, a);
      var w := Normalize(norm, a);
      var r := Scale(w, MaxInner);
      assert Dot(r, r) == 225.0 * Dot(w, w);
      NormFifteen(norm, r);
      ScaleScale(w, MaxInner, norm(a));
      ScaleScale(w, norm(a), MaxInner);
    }
  }

  /** A boost that moves adds exactly one unit along the push direction
      before clamping. */
  lemma BoostStep(norm: Vec3 -> real, front: Vec3, right: Vec3, inner: Vec3, d: Mapping)
    requires norm(BoostDirection(front, right, d)) > 0.0
    ensures Boost(norm, front, right, inner, d)
         == Clamp(norm, Add(inner, Normalize(norm, BoostDirection(front, right, d))))
  {
    var u := Normalize(norm, BoostDirection(front, right, d));
    assert Scale(u, Increment) == u;
  }

  /** Starting from rest (or from anything at most MaxInner long), any run of
      boosts keeps the inner acceleration at most MaxInner long. */
  lemma BoostBounded(norm: Vec3 -> real, front: Vec3, right: Vec3, inner: Vec3, d: Mapping)
    requires IsNorm(norm) && norm(inner) <= MaxInner
    ensures norm(Boost(norm, front, right, inner, d)) <= MaxInner
  {
    if norm(BoostDirection(front, right, d)) > 0.0 {
      BoostStep(norm, front, right, inner, d);
      ClampFacts(norm, Add(inner, Normalize(norm, BoostDirection(front, right, d))));
    }
  }

  /** A decay leaves the zero vector at zero and scales anything else by 0.99. */
  lemma DecayOnce(norm: Vec3 -> real, inner: Vec3)
    requires IsNorm(norm)
    ensures inner == Zero ==> Decay(norm, inner) == Zero
    ensures inner != Zero ==> Decay(norm, inner) == Scale(inner, ReductionRate)
  {
  }

  /** K decays with no boost in between scale the inner acceleration by 0.99^K. */
  lemma DecayPower(norm: Vec3 -> real, inner: Vec3, k: nat)
    requires IsNorm(norm)
    ensures DecayTimes(norm, inner, k) == Scale(inner, Pow(ReductionRate, k))
  {
    if inner == Zero {
      DecayRest(norm, k);
    } else {
      DecayMoving(norm, inner, k);
    }
  }

  lemma {:induction false} DecayRest(norm: Vec3 -> real, k: nat)
    ensures DecayTimes(norm, Zero, k) == Zero
    decreases k
  {
    if k > 0 {
      assert Decay(norm, Zero) == Zero;
      DecayRest(norm, k - 1);
    }
  }

  lemma {:induction false} DecayMoving(norm: Vec3 -> real, inner: Vec3, k: nat)
    requires IsNorm(norm) && inner != Zero
    ensures DecayTimes(norm, inner, k) == Scale(inner, Pow(ReductionRate, k))
    decreases k
  {
    if k > 0 {
      var p := Pow(ReductionRate, k - 1);
      var next := Scale(inner, ReductionRate);
      assert norm(inner) > 0.0;
      assert next != Zero;
      DecayMoving(norm, next, k - 1);
      ScaleScale(inner, ReductionRate, p);
    } else {
      assert Scale(inner, 1.0) == inner;
    }
  }

  class Soul {
    var position: Vec3
    var front: Vec3
    var up: Vec3
    var right: Vec3
    var velocity: Vec3
    var inner: Vec3
    var outer: Vec3

    /** `Soul(entity, x, y, height)`: the second coordinate goes to z and the
        height to y; the basis starts as right (1,0,0), up (0,1,0), front
        (0,0,-1), and the body is at rest. */
    constructor (x: real, y: real, height: real)
      ensures position == Vec3(x, height, y)
      ensures front == Vec3(0.0, 0.0, -1.0) && up == Vec3(0.0, 1.0, 0.0) && right == Vec3(1.0, 0.0, 0.0)
      ensures velocity == Zero && inner == Zero && outer == Zero
    {
      position := Vec3(x, height, y);
      front := Vec3(0.0, 0.0, -1.0);
      up := Vec3(0.0, 1.0, 0.0);
      right := Vec3(1.0, 0.0, 0.0);
      velocity := Zero;
      inner := Zero;
      outer := Zero;
    }

    /** `Soul(entity, globalMat)`: the position is the translation column. */
    constructor FromMatrix(m: Mat4)
      ensures position == Column3(m, 3)
      ensures front == Vec3(0.0, 0.0, -1.0) && up == Vec3(0.0, 1.0, 0.0) && right == Vec3(1.0, 0.0, 0.0)
      ensures velocity == Zero && inner == Zero && outer == Zero
    {
      position := Vec3(m[3][0], m[3][1], m[3][2]);
      front := Vec3(0.0, 0.0, -1.0);
      up := Vec3(0.0, 1.0, 0.0);
      right := Vec3(1.0, 0.0, 0.0);
      velocity := Zero;
      inner := Zero;
      outer := Zero;
    }

    /** The move constructor: takes every field of `other`, then zeroes all
        of other's vectors, its basis included. */
    constructor Moved(other: Soul)
      modifies other
      ensures position == old(other.position) && front == old(other.front) && up == old(other.up)
      ensures right == old(other.right) && velocity == old(other.velocity)
      ensures inner == old(other.inner) && outer == old(other.outer)
      ensures other.position == Zero && other.front == Zero && other.up == Zero && other.right == Zero
      ensures other.velocity == Zero && other.inner == Zero && other.outer == Zero
    {
      position := other.position;
      front := other.front;
      up := other.up;
      right := other.right;
      velocity := other.velocity;
      inner := other.inner;
      outer := other.outer;
      new;
      other.position := Zero;
      other.front := Zero;
      other.up := Zero;
      other.right := Zero;
      other.velocity := Zero;
      other.inner := Zero;
      other.outer := Zero;
    }

    function GlobalMat(): Mat4
      reads this
    {
      Frame(position, right, up, front)
    }

    /** `setView`: front, up and right become rows 2, 1 and 0 of the upper
        3x3 block; nothing else changes. */
    method SetView(m: Mat4)
      modifies this
      ensures front == Row3(m, 2) && up == Row3(m, 1) && right == Row3(m, 0)
      ensures position == old(position) && velocity == old(velocity)
      ensures inner == old(inner) && outer == old(outer)
    {
      front := Vec3(m[0][2], m[1][2], m[2][2]);
      up := Vec3(m[0][1], m[1][1], m[2][1]);
      right := Vec3(m[0][0], m[1][0], m[2][0]);
    }

    /** `processBoost`: only the inner acceleration changes. */
    method ProcessBoost(norm: Vec3 -> real, d: Mapping)
      modifies this
      ensures inner == Boost(norm, old(front), old(right), old(inner), d)
      ensures position == old(position) && front == old(front) && up == old(up) && right == old(right)
      ensures velocity == old(velocity) && outer == old(outer)
    {
      var moveDir := Zero;
      match d {
        case Forward1 => moveDir := Add(moveDir, Vec3(front.x, 0.0, front.z));
        case Backward1 => moveDir := Sub(moveDir, Vec3(front.x, 0.0, front.z));
        case Left1 => moveDir := Sub(moveDir, Vec3(right.x, 0.0, right.z));
        case Right1 => moveDir := Add(moveDir, Vec3(right.x, 0.0, right.z));
        case Up1 => moveDir := Add(moveDir, Vec3(0.0, 1.0, 0.0));
        case Down1 => moveDir := Add(moveDir, Vec3(0.0, -1.0, 0.0));
        case _ =>
      }
      if norm(moveDir) > 0.0 {
        inner := Add(inner, Scale(Normalize(norm, moveDir), Increment));
        if norm(inner) > MaxInner {
          inner := Scale(Normalize(norm, inner), MaxInner);
        }
      }
    }

    /** `processDecay`: only the inner acceleration changes. */
    method ProcessDecay(norm: Vec3 -> real)
      modifies this
      ensures inner == Decay(norm, old(inner))
      ensures position == old(position) && front == old(front) && up == old(up) && right == old(right)
      ensures velocity == old(velocity) && outer == old(outer)
    {
      if norm(inner) > 0.0 {
        inner := Scale(inner, ReductionRate);
      }
    }
  }
}
