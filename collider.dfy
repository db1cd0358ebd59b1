/** A walking body (`Collider`): feet on the ground, a shell point that
    stands for the body's extent, an orientation basis, and two flags the
    world reads (still falling, moved this frame). A direction recorded in
    `whereHit` is blocked. The model's vertex bounds (the animator's
    getMin/getMax) are fixed fields here. */
module Colliders {
  import opened Linear
  import opened Mappings

  /** COLLIDER_VELOCITY */
  const DefaultVelocity: real := 0.05

  /** Every field of a collider, as one value. */
  datatype ColliderState = ColliderState(
    falling: bool, moving: bool, whereHit: Mapping, velocity: real,
    feet: Vec3, front: Vec3, up: Vec3, right: Vec3, direction: Vec3, shell: Vec3,
    boundsMin: Vec3, boundsMax: Vec3)

  /** The horizontal shell radius: the largest of max.x, max.z, |min.x|, |min.z|. */
  function Radius(boundsMin: Vec3, boundsMax: Vec3): (r: real)
    ensures r >= boundsMax.x && r >= boundsMax.z && r >= Abs(boundsMin.x) && r >= Abs(boundsMin.z)
    ensures r == boundsMax.x || r == boundsMax.z || r == Abs(boundsMin.x) || r == Abs(boundsMin.z)
  {
    Max(Max(boundsMax.x, boundsMax.z), Max(Abs(boundsMin.x), Abs(boundsMin.z)))
  }

  /** The `direction_` a horizontal move sets: front or right, possibly
      negated, with the y part dropped. */
  function HorizontalDir(front: Vec3, right: Vec3, d: Mapping): Vec3
  {
    match d
    case Forward1 => Vec3(front.x, 0.0, front.z)
    case Backward1 => Vec3(-front.x, 0.0, -front.z)
    case Left1 => Vec3(-right.x, 0.0, -right.z)
    case Right1 => Vec3(right.x, 0.0, right.z)
    case _ => Zero
  }

  /** What a horizontal move needs: a push direction of non-zero length
      (glm would otherwise normalise to NaN). */
  predicate CanMove(norm: Vec3 -> real, s: ColliderState, d: Mapping)
  {
    IsHorizontal(d) && d != s.whereHit ==> norm(HorizontalDir(s.front, s.right, d)) != 0.0
  }

  /** A horizontal move along `dir`, whose normalised form is `unit`: the
      feet move velocity*dt along `unit` at their own height, and the shell
      sits the radius further along it at its old height. */
  function HorizontalMove(s: ColliderState, dir: Vec3, unit: Vec3, dt: real): ColliderState
  {
    var step := Scale(unit, s.velocity * dt);
    var feet := Vec3(s.feet.x + step.x, s.feet.y, s.feet.z + step.z);
    var reach := Scale(unit, Radius(s.boundsMin, s.boundsMax));
    s.(direction := dir, feet := feet, shell := Vec3(feet.x + reach.x, s.shell.y, feet.z + reach.z))
  }

  /** The vertical push axis of UP_1 (`up`) or DOWN_1. */
  function Axis(up: bool): Vec3
  {
    if up then Vec3(0.0, 1.0, 0.0) else Vec3(0.0, -1.0, 0.0)
  }

  /** Normalising a vertical axis leaves it unchanged, so the vertical
      moves below step along the axis itself. */
  lemma AxisNormalize(norm: Vec3 -> real, up: bool)
    requires IsNorm(norm)
    ensures norm(Axis(up)) == 1.0 && Normalize(norm, Axis(up)) == Axis(up)
  {
    UnitNorm(norm, Axis(up));
  }

  /** UP_1 or DOWN_1: the feet's height moves by the y part of the step and
      the shell follows it; the body is falling again. */
  function VerticalMove(s: ColliderState, up: bool, dt: real): ColliderState
  {
    var step := Scale(Axis(up), s.velocity * dt);
    var feet := s.feet.(y := s.feet.y + step.y);
    var shell := s.shell.(y := if up then feet.y + s.boundsMax.y else feet.y);
    s.(direction := Axis(up), feet := feet, shell := shell, falling := true)
  }

  /** `processPosMove`. */
  function PosMove(norm: Vec3 -> real, s: ColliderState, d: Mapping, dt: real): ColliderState
    requires CanMove(norm, s, d)
  {
    if d == s.whereHit then s
    else if IsHorizontal(d) then
      var dir := HorizontalDir(s.front, s.right, d);
      HorizontalMove(s, dir, Normalize(norm, dir), dt).(moving := true)
    else if d == Up1 || d == Down1 then VerticalMove(s, d == Up1, dt).(moving := true)
    else s.(moving := true)
  }

  /** For a true length, a horizontal move is possible exactly when the
      flattened front (or right) vector is not zero. */
  lemma CanMoveIff(norm: Vec3 -> real, s: ColliderState, d: Mapping)
    requires IsNorm(norm)
    ensures CanMove(norm, s, d) <==> (IsHorizontal(d) && d != s.whereHit ==> HorizontalDir(s.front, s.right, d) != Zero)
  {
  }

  /** Moving towards the recorded hit direction changes nothing at all. */
  lemma PosMoveBlocked(norm: Vec3 -> real, s: ColliderState, d: Mapping, dt: real)
    requires IsNorm(norm) && CanMove(norm, s, d) && d == s.whereHit
    ensures PosMove(norm, s, d, dt) == s
  {
  }

  /** Any other direction sets the moving flag, including inputs that do
      not move the body; only the vertical ones set the falling flag; and
      the basis, the speed, the bounds and the hit direction never change. */
  lemma PosMoveFlags(norm: Vec3 -> real, s: ColliderState, d: Mapping, dt: real)
    requires IsNorm(norm) && CanMove(norm, s, d) && d != s.whereHit
    ensures var r := PosMove(norm, s, d, dt);
            r.moving && (IsVertical(d) ==> r.falling) && (!IsVertical(d) ==> r.falling == s.falling) &&
            r.(feet := s.feet, shell := s.shell, direction := s.direction, falling := s.falling, moving := s.moving) == s
    ensures !IsHorizontal(d) && !IsVertical(d) ==> PosMove(norm, s, d, dt) == s.(moving := true)
  {
  }

  /** A step of length k along a unit vector `u` that `len` scales back
      to `dir` has squared length k*k and points along `dir`. */
  lemma ScaledUnit(u: Vec3, len: real, dir: Vec3, k: real)
    requires Dot(u, u) == 1.0 && Scale(u, len) == dir
    ensures Dot(Scale(u, k), Scale(u, k)) == k * k
    ensures Scale(Scale(u, k), len) == Scale(dir, k)
  {
    assert (u.x * k) * (u.x * k) + (u.y * k) * (u.y * k) + (u.z * k) * (u.z * k)
        == (k * k) * (u.x * u.x + u.y * u.y + u.z * u.z);
    ScaleScale(u, k, len);
    ScaleScale(u, len, k);
  }

  /** A horizontal move along a flat unit vector keeps the feet's height
      and moves them velocity*dt along the direction. */
  lemma HorizontalFeet(s: ColliderState, dir: Vec3, unit: Vec3, len: real, dt: real)
    requires Dot(unit, unit) == 1.0 && Scale(unit, len) == dir && unit.y == 0.0
    ensures var step := Sub(HorizontalMove(s, dir, unit, dt).feet, s.feet);
            var k := s.velocity * dt;
            step.y == 0.0 && Dot(step, step) == k * k && Scale(step, len) == Scale(dir, k)
  {
    var k := s.velocity * dt;
    Reach(s.feet, s.feet.y, unit, len, dir, k);
    assert Sub(HorizontalMove(s, dir, unit, dt).feet, s.feet)
        == Sub(Vec3(s.feet.x + Scale(unit, k).x, s.feet.y, s.feet.z + Scale(unit, k).z), s.feet).(y := 0.0);
  }

  /** The point `radius` beyond `f` along a flat unit vector. */
  lemma Reach(f: Vec3, y: real, unit: Vec3, len: real, dir: Vec3, radius: real)
    requires Dot(unit, unit) == 1.0 && Scale(unit, len) == dir && unit.y == 0.0
    ensures var reach := Sub(Vec3(f.x + Scale(unit, radius).x, y, f.z + Scale(unit, radius).z), f).(y := 0.0);
            Dot(reach, reach) == radius * radius && Scale(reach, len) == Scale(dir, radius)
  {
    ScaledUnit(unit, len, dir, radius);
    assert Sub(Vec3(f.x + Scale(unit, radius).x, y, f.z + Scale(unit, radius).z), f).(y := 0.0) == Scale(unit, radius);
  }

  /** After a horizontal move the shell sits the radius beyond the feet
      along the direction, at its old height. */
  lemma HorizontalShell(s: ColliderState, dir: Vec3, unit: Vec3, len: real, dt: real)
    requires Dot(unit, unit) == 1.0 && Scale(unit, len) == dir && unit.y == 0.0
    ensures var r := HorizontalMove(s, dir, unit, dt);
            var reach := Sub(r.shell, r.feet).(y := 0.0);
            var radius := Radius(s.boundsMin, s.boundsMax);
            r.shell.y == s.shell.y && Dot(reach, reach) == radius * radius && Scale(reach, len) == Scale(dir, radius)
  {
    var r := HorizontalMove(s, dir, unit, dt);
    Reach(r.feet, s.shell.y, unit, len, dir, Radius(s.boundsMin, s.boundsMax));
  }

  /** `processPosMove` in the four horizontal directions: the feet keep
      their height and move velocity*dt along the flattened direction, and
      the shell sits the radius further along it at its old height. */
  lemma PosMoveHorizontal(norm: Vec3 -> real, s: ColliderState, d: Mapping, dt: real)
    requires IsNorm(norm) && CanMove(norm, s, d) && d != s.whereHit && IsHorizontal(d)
    ensures var r := PosMove(norm, s, d, dt);
            var dir := HorizontalDir(s.front, s.right, d);
            var step := Sub(r.feet, s.feet);
            var reach := Sub(r.shell, r.feet).(y := 0.0);
            var k := s.velocity * dt;
            var radius := Radius(s.boundsMin, s.boundsMax);
            r.direction == dir && step.y == 0.0 && r.shell.y == s.shell.y &&
            Dot(step, step) == k * k && Scale(step, norm(dir)) == Scale(dir, k) &&
            Dot(reach, reach) == radius * radius && Scale(reach, norm(dir)) == Scale(dir, radius)
  {
    var dir := HorizontalDir(s.front, s.right, d);
    NormalizeUnit(norm, dir);
    var unit := Normalize(norm, dir);
    assert unit.y == 0.0;
    HorizontalFeet(s, dir, unit, norm(dir), dt);
    HorizontalShell(s, dir, unit, norm(dir), dt);
  }

  /** UP_1 and DOWN_1 change only the feet's height, by plus or minus
      velocity*dt, and put the shell at the feet plus max.y (up) or at the
      feet (down). */
  lemma PosMoveVertical(norm: Vec3 -> real, s: ColliderState, d: Mapping, dt: real)
    requires IsNorm(norm) && CanMove(norm, s, d) && d != s.whereHit && IsVertical(d)
    ensures var r := PosMove(norm, s, d, dt);
            r.feet.x == s.feet.x && r.feet.z == s.feet.z &&
            r.shell.x == s.shell.x && r.shell.z == s.shell.z &&
            (d == Up1 ==> r.feet.y == s.feet.y + s.velocity * dt && r.shell.y == r.feet.y + s.boundsMax.y) &&
            (d == Down1 ==> r.feet.y == s.feet.y - s.velocity * dt && r.shell.y == r.feet.y)
  {
    assert PosMove(norm, s, d, dt) == VerticalMove(s, d == Up1, dt).(moving := true);
  }

  class Collider {
    var falling: bool
    var moving: bool
    var whereHit: Mapping
    var velocity: real
    var feet: Vec3
    var front: Vec3
    var up: Vec3
    var right: Vec3
    var direction: Vec3
    var shell: Vec3
    var boundsMin: Vec3
    var boundsMax: Vec3

    function State(): ColliderState
      reads this
    {
      ColliderState(falling, moving, whereHit, velocity, feet, front, up, right, direction, shell,
                    boundsMin, boundsMax)
    }

    /** `Collider(entity, x, y, height)`: feet at (x, height, y), shell at
        the middle height of the model; falling, not moving, no direction
        blocked (`count`), the default speed. */
    constructor (x: real, y: real, height: real, boundsMin: Vec3, boundsMax: Vec3)
      ensures State() == ColliderState(true, false, Count, DefaultVelocity,
                Vec3(x, height, y), Vec3(0.0, 0.0, -1.0), Vec3(0.0, 1.0, 0.0), Vec3(1.0, 0.0, 0.0),
                Zero, Vec3(x, (boundsMax.y + boundsMin.y) * 0.5, y), boundsMin, boundsMax)
    {
      falling := true;
      moving := false;
      whereHit := Count;
      velocity := DefaultVelocity;
      feet := Vec3(x, height, y);
      front := Vec3(0.0, 0.0, -1.0);
      up := Vec3(0.0, 1.0, 0.0);
      right := Vec3(1.0, 0.0, 0.0);
      direction := Zero;
      shell := Vec3(x, (boundsMax.y + boundsMin.y) * 0.5, y);
      this.boundsMin := boundsMin;
      this.boundsMax := boundsMax;
    }

    /** `Collider(entity, globalMat)`: feet at the translation column. */
    constructor FromMatrix(m: Mat4, boundsMin: Vec3, boundsMax: Vec3)
      ensures State() == ColliderState(true, false, Count, DefaultVelocity,
                Column3(m, 3), Vec3(0.0, 0.0, -1.0), Vec3(0.0, 1.0, 0.0), Vec3(1.0, 0.0, 0.0),
                Zero, Vec3(m[3][0], (boundsMax.y + boundsMin.y) * 0.5, m[3][2]), boundsMin, boundsMax)
    {
      falling := true;
      moving := false;
      whereHit := Count;
      velocity := DefaultVelocity;
      feet := Vec3(m[3][0], m[3][1], m[3][2]);
      front := Vec3(0.0, 0.0, -1.0);
      up := Vec3(0.0, 1.0, 0.0);
      right := Vec3(1.0, 0.0, 0.0);
      direction := Zero;
      shell := Vec3(m[3][0], (boundsMax.y + boundsMin.y) * 0.5, m[3][2]);
      this.boundsMin := boundsMin;
      this.boundsMax := boundsMax;
    }

    /** The move constructor: takes every field; `other` is left with both
        flags false, no direction blocked, zero vectors and zero speed. */
    constructor Moved(other: Collider)
      modifies other
      ensures State() == old(other.State())
      ensures other.State() == ColliderState(false, false, Count, 0.0, Zero, Zero, Zero, Zero, Zero, Zero,
                                             old(other.boundsMin), old(other.boundsMax))
    {
      falling := other.falling;
      moving := other.moving;
      whereHit := other.whereHit;
      velocity := other.velocity;
      feet := other.feet;
      front := other.front;
      up := other.up;
      right := other.right;
      direction := other.direction;
      shell := other.shell;
      boundsMin := other.boundsMin;
      boundsMax := other.boundsMax;
      new;
      other.falling := false;
      other.moving := false;
      other.whereHit := Count;
      other.feet := Zero;
      other.front := Zero;
      other.up := Zero;
      other.right := Zero;
      other.direction := Zero;
      other.shell := Zero;
      other.velocity := 0.0;
    }

    function GlobalMat(): Mat4
      reads this
    {
      Frame(feet, right, up, front)
    }

    method ClearFallingFlag()
      modifies this
      ensures State() == old(State()).(falling := false)
    {
      falling := false;
    }

    method ClearMovingFlag()
      modifies this
      ensures State() == old(State()).(moving := false)
    {
      moving := false;
    }

    method SetWhereHit(d: Mapping)
      modifies this
      ensures State() == old(State()).(whereHit := d)
    {
      whereHit := d;
    }

    /** `setViewMove`: rows 2, 1, 0 of the upper 3x3 block become front, up, right. */
    method SetViewMove(m: Mat4)
      modifies this
      ensures State() == old(State()).(front := Row3(m, 2), up := Row3(m, 1), right := Row3(m, 0))
    {
      front := Vec3(m[0][2], m[1][2], m[2][2]);
      up := Vec3(m[0][1], m[1][1], m[2][1]);
      right := Vec3(m[0][0], m[1][0], m[2][0]);
    }

    /** `processPosMove`, field by field. */
    method ProcessPosMove(norm: Vec3 -> real, d: Mapping, dt: real)
      requires CanMove(norm, State(), d)
      modifies this
      ensures State() == PosMove(norm, old(State()), d, dt)
    {
      if d == whereHit {
        return;
      }
      if IsHorizontal(d) {
        var dir := HorizontalDir(front, right, d);
        HorizontalStep(dir, Normalize(norm, dir), dt);
      } else if d == Up1 || d == Down1 {
        VerticalStep(d == Up1, dt);
      }
      moving := true;
    }

    /** The shared body of the four horizontal cases. */
    method HorizontalStep(dir: Vec3, unit: Vec3, dt: real)
      modifies this
      ensures State() == HorizontalMove(old(State()), dir, unit, dt)
    {
      direction := dir;
      var change := Scale(unit, velocity * dt);
      feet := Vec3(feet.x + change.x, feet.y, feet.z + change.z);
      change := Scale(unit, Radius(boundsMin, boundsMax));
      shell := Vec3(feet.x + change.x, shell.y, feet.z + change.z);
    }

    /** The UP_1 (`up`) and DOWN_1 cases. */
    method VerticalStep(up: bool, dt: real)
      modifies this
      ensures State() == VerticalMove(old(State()), up, dt)
    {
      direction := Zero;
      direction := direction.(y := if up then 1.0 else -1.0);
      var change := Scale(direction, velocity * dt);
      feet := feet.(y := feet.y + change.y);
      shell := shell.(y := if up then feet.y + boundsMax.y else feet.y);
      falling := true;
    }
  }
}
