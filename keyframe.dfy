/** The keyframes of one animated node: three key channels (position,
    rotation, scaling), each with a cursor that moves forward through the
    keys as the animation tick grows, and the transformation interpolated
    between the key at the cursor and the key after it.

    Matrices and quaternions built by glm are kept symbolic: a
    transformation is the list of its factors, multiplied left to right,
    with the empty list as the identity. */
module KeyFrames {
  import opened Results
  import opened Linear
  import opened Converters

  datatype KeyPosition = KeyPosition(position: Vec3, tickStamp: real)
  datatype KeyRotation = KeyRotation(orientation: Quat, tickStamp: real)
  datatype KeyScale = KeyScale(scale: Vec3, tickStamp: real)

  /** assimp's keys and the channel of one node. */
  datatype AiVectorKey = AiVectorKey(time: real, value: AiVector3D)
  datatype AiQuatKey = AiQuatKey(time: real, value: AiQuaternion)
  datatype AiNodeAnim = AiNodeAnim(nodeName: string, positionKeys: seq<AiVectorKey>,
                                   rotationKeys: seq<AiQuatKey>, scalingKeys: seq<AiVectorKey>)

  /** A rotation by a key's orientation, or by the slerp of two
      orientations at a factor; either is normalised before it becomes a
      matrix. */
  datatype Rotor = Key(q: Quat) | Slerp(from: Quat, to: Quat, t: real)

  /** A factor of a transformation: `glm::translate`, `glm::toMat4`,
      `glm::scale` of the identity, or a given matrix. */
  datatype Factor = Translation(v: Vec3) | Rotation(r: Rotor) | Scaling(v: Vec3) | Matrix(m: Mat4)

  /** A product of factors; `[]` is `glm::mat4(1.0f)` and `a * b` is `a + b`. */
  type Transform = seq<Factor>

  // ---------------------------------------------------------------------
  // Channels

  function PositionStamps(ks: seq<KeyPosition>): (s: seq<real>)
    ensures |s| == |ks| && forall i :: 0 <= i < |ks| ==> s[i] == ks[i].tickStamp
  {
    seq(|ks|, i requires 0 <= i < |ks| => ks[i].tickStamp)
  }

  function RotationStamps(ks: seq<KeyRotation>): (s: seq<real>)
    ensures |s| == |ks| && forall i :: 0 <= i < |ks| ==> s[i] == ks[i].tickStamp
  {
    seq(|ks|, i requires 0 <= i < |ks| => ks[i].tickStamp)
  }

  function ScaleStamps(ks: seq<KeyScale>): (s: seq<real>)
    ensures |s| == |ks| && forall i :: 0 <= i < |ks| ==> s[i] == ks[i].tickStamp
  {
    seq(|ks|, i requires 0 <= i < |ks| => ks[i].tickStamp)
  }

  /** Key stamps strictly increase along a channel. */
  predicate Rising(s: seq<real>)
  {
    forall i :: 0 <= i < |s| - 1 ==> s[i] < s[i + 1]
  }

  /** The keys of a channel as the constructor copies them. */
  function PositionsOf(keys: seq<AiVectorKey>): (ks: seq<KeyPosition>)
    ensures |ks| == |keys|
    ensures forall i :: 0 <= i < |keys| ==> ks[i].position == GetGlmVec(keys[i].value) && ks[i].tickStamp == keys[i].time
  {
    seq(|keys|, i requires 0 <= i < |keys| => KeyPosition(GetGlmVec(keys[i].value), keys[i].time))
  }

  function RotationsOf(keys: seq<AiQuatKey>): (ks: seq<KeyRotation>)
    ensures |ks| == |keys|
    ensures forall i :: 0 <= i < |keys| ==> ks[i].orientation == GetGlmQuat(keys[i].value) && ks[i].tickStamp == keys[i].time
  {
    seq(|keys|, i requires 0 <= i < |keys| => KeyRotation(GetGlmQuat(keys[i].value), keys[i].time))
  }

  function ScalesOf(keys: seq<AiVectorKey>): (ks: seq<KeyScale>)
    ensures |ks| == |keys|
    ensures forall i :: 0 <= i < |keys| ==> ks[i].scale == GetGlmVec(keys[i].value) && ks[i].tickStamp == keys[i].time
  {
    seq(|keys|, i requires 0 <= i < |keys| => KeyScale(GetGlmVec(keys[i].value), keys[i].time))
  }

  function VectorTimes(keys: seq<AiVectorKey>): (s: seq<real>)
    ensures |s| == |keys| && forall i :: 0 <= i < |keys| ==> s[i] == keys[i].time
  {
    seq(|keys|, i requires 0 <= i < |keys| => keys[i].time)
  }

  function QuatTimes(keys: seq<AiQuatKey>): (s: seq<real>)
    ensures |s| == |keys| && forall i :: 0 <= i < |keys| ==> s[i] == keys[i].time
  {
    seq(|keys|, i requires 0 <= i < |keys| => keys[i].time)
  }

  /** A channel whose keys come in strictly increasing time. */
  predicate ChannelOk(c: AiNodeAnim)
  {
    Rising(VectorTimes(c.positionKeys)) && Rising(QuatTimes(c.rotationKeys)) && Rising(VectorTimes(c.scalingKeys))
  }

  // ---------------------------------------------------------------------
  // Cursors

  /** A cursor starts at 1 and, on a channel with keys, stays within its
      size. */
  predicate CursorOk(cursor: int, size: nat)
  {
    1 <= cursor && (size > 0 ==> cursor <= size)
  }

  /** `get*Index` with the bound checked before the stamp is read: the
      cursor passes the key it points at once the tick has reached that
      key's stamp. */
  function Advance(stamps: seq<real>, cursor: int, tick: real): int
    requires 0 <= cursor
  {
    if cursor < |stamps| && tick >= stamps[cursor] then cursor + 1 else cursor
  }

  /** A call moves the cursor forward by at most one, only past a key whose
      stamp the tick has reached, and never beyond the channel's size; the
      key index it returns is that of a key of the channel. */
  lemma AdvanceBounds(stamps: seq<real>, cursor: int, tick: real)
    requires CursorOk(cursor, |stamps|) && |stamps| > 0
    ensures var c := Advance(stamps, cursor, tick);
            cursor <= c <= cursor + 1 && CursorOk(c, |stamps|) && 0 <= c - 1 < |stamps| &&
            (c == cursor + 1 <==> cursor < |stamps| && stamps[cursor] <= tick)
  {
  }

  /** Once the cursor is at the end it stays there. */
  lemma AdvanceAtEnd(stamps: seq<real>, tick: real)
    ensures Advance(stamps, |stamps|, tick) == |stamps|
  {
  }

  /** A tick before the stamp at the cursor leaves the cursor where it is,
      so a cursor only moves forward as long as the tick does. */
  lemma AdvanceWaits(stamps: seq<real>, cursor: int, tick: real)
    requires 0 <= cursor < |stamps| && tick < stamps[cursor]
    ensures Advance(stamps, cursor, tick) == cursor
  {
  }

  /** `get*Index` as written: the stamp at the cursor is read first and the
      bound is checked after it, so a cursor at the end reads one past the
      last key. */
  function AdvanceAsWritten(stamps: seq<real>, cursor: int, tick: real): Result<int>
    requires 0 <= cursor
  {
    if cursor >= |stamps| then Err(ReadPastEnd)
    else Ok(if tick >= stamps[cursor] then cursor + 1 else cursor)
  }

  /** Where the read is in range the two orders agree; at the end of a
      channel the order as written reads past the last key. On a channel
      with a single key this happens on the very first call, since the
      cursor starts at 1. */
  lemma AdvanceAsWrittenReadsPastEnd(stamps: seq<real>, cursor: int, tick: real)
    requires 0 <= cursor
    ensures cursor < |stamps| ==> AdvanceAsWritten(stamps, cursor, tick) == Ok(Advance(stamps, cursor, tick))
    ensures cursor >= |stamps| ==> AdvanceAsWritten(stamps, cursor, tick) == Err(ReadPastEnd)
    ensures |stamps| == 1 ==> AdvanceAsWritten(stamps, 1, tick) == Err(ReadPastEnd) && Advance(stamps, 1, tick) == 1
  {
  }

  // ---------------------------------------------------------------------
  // Interpolation between two keys

  /** `getScaleFactor`: how far the tick is from the last key towards the
      next one. */
  function ScaleFactor(lastStamp: real, nextStamp: real, tick: real): real
    requires lastStamp != nextStamp
  {
    (tick - lastStamp) / (nextStamp - lastStamp)
  }

  /** The factor is 0 at the last key's stamp and 1 at the next key's, it
      measures the tick's distance from the last stamp in units of the gap,
      and between two increasing stamps it lies in [0, 1]. */
  lemma ScaleFactorFacts(lastStamp: real, nextStamp: real, tick: real)
    requires lastStamp != nextStamp
    ensures ScaleFactor(lastStamp, nextStamp, lastStamp) == 0.0
    ensures ScaleFactor(lastStamp, nextStamp, nextStamp) == 1.0
    ensures ScaleFactor(lastStamp, nextStamp, tick) * (nextStamp - lastStamp) == tick - lastStamp
    ensures lastStamp < nextStamp && lastStamp <= tick <= nextStamp ==>
              0.0 <= ScaleFactor(lastStamp, nextStamp, tick) <= 1.0
  {
    var f := ScaleFactor(lastStamp, nextStamp, tick);
    var d := nextStamp - lastStamp;
    assert f * d == tick - lastStamp;
    if lastStamp < nextStamp && lastStamp <= tick <= nextStamp {
      if f < 0.0 {
        assert f * d < 0.0 by { MulPos(-f, d); }
      }
    }
  }

  /** `interpolatePosition` once the key is known: the last key's position
      as it is, otherwise the position mixed towards the next key by the
      factor. */
  function PositionAt(keys: seq<KeyPosition>, key: int, tick: real): Transform
    requires 0 <= key < |keys| && Rising(PositionStamps(keys))
  {
    if key >= |keys| - 1 then [Translation(keys[key].position)]
    else
      assert PositionStamps(keys)[key] < PositionStamps(keys)[key + 1];
      [Translation(Mix(keys[key].position, keys[key + 1].position,
                       ScaleFactor(keys[key].tickStamp, keys[key + 1].tickStamp, tick)))]
  }

  /** The interpolated position passes through the keys: it is the key's
      position at the key's stamp and at the last key, and the next key's
      position at the next key's stamp. */
  lemma PositionAtKeys(keys: seq<KeyPosition>, key: int)
    requires 0 <= key < |keys| && Rising(PositionStamps(keys))
    ensures PositionAt(keys, key, keys[key].tickStamp) == [Translation(keys[key].position)]
    ensures key + 1 < |keys| ==> PositionAt(keys, key, keys[key + 1].tickStamp) == [Translation(keys[key + 1].position)]
  {
    if key + 1 < |keys| {
      assert PositionStamps(keys)[key] < PositionStamps(keys)[key + 1];
      ScaleFactorFacts(keys[key].tickStamp, keys[key + 1].tickStamp, keys[key].tickStamp);
    }
  }

  /** The second orientation, negated when its dot product with the first
      is negative, so that slerp takes the shorter arc. */
  function Aligned(q1: Quat, q2: Quat): Quat
  {
    if QDot(q1, q2) < 0.0 then QNeg(q2) else q2
  }

  /** The aligned orientation is the second one or its negation (the same
      rotation), it is the second one unchanged when the dot product is
      already non-negative, and its dot product with the first is never
      negative. */
  lemma AlignedFacts(q1: Quat, q2: Quat)
    ensures Aligned(q1, q2) == q2 || Aligned(q1, q2) == QNeg(q2)
    ensures QDot(q1, q2) >= 0.0 ==> Aligned(q1, q2) == q2
    ensures QDot(q1, Aligned(q1, q2)) >= 0.0
  {
    QDotNeg(q1, q2);
  }

  lemma QDotNeg(q1: Quat, q2: Quat)
    ensures QDot(q1, QNeg(q2)) == -QDot(q1, q2)
  {
    var n := QNeg(q2);
    var a, b, c, d := q1.w * q2.w, q1.x * q2.x, q1.y * q2.y, q1.z * q2.z;
    assert q1.w * n.w == -a && q1.x * n.x == -b && q1.y * n.y == -c && q1.z * n.z == -d;
    assert QDot(q1, n) == -a + -b + -c + -d;
  }

  /** `interpolateRotation` once the key is known. */
  function RotationAt(keys: seq<KeyRotation>, key: int, tick: real): Transform
    requires 0 <= key < |keys| && Rising(RotationStamps(keys))
  {
    if key >= |keys| - 1 then [Rotation(Key(keys[key].orientation))]
    else
      assert RotationStamps(keys)[key] < RotationStamps(keys)[key + 1];
      var q1 := keys[key].orientation;
      [Rotation(Slerp(q1, Aligned(q1, keys[key + 1].orientation),
                      ScaleFactor(keys[key].tickStamp, keys[key + 1].tickStamp, tick)))]
  }

  /** Between two keys the slerp starts at the key's orientation and ends
      at the next one's, aligned, with a factor running from 0 at the key's
      stamp to 1 at the next stamp. */
  lemma RotationAtKeys(keys: seq<KeyRotation>, key: int)
    requires 0 <= key < |keys| - 1 && Rising(RotationStamps(keys))
    ensures var q1 := keys[key].orientation;
            var q2 := Aligned(q1, keys[key + 1].orientation);
            RotationAt(keys, key, keys[key].tickStamp) == [Rotation(Slerp(q1, q2, 0.0))] &&
            RotationAt(keys, key, keys[key + 1].tickStamp) == [Rotation(Slerp(q1, q2, 1.0))] &&
            QDot(q1, q2) >= 0.0
  {
    assert RotationStamps(keys)[key] < RotationStamps(keys)[key + 1];
    ScaleFactorFacts(keys[key].tickStamp, keys[key + 1].tickStamp, keys[key].tickStamp);
    AlignedFacts(keys[key].orientation, keys[key + 1].orientation);
  }

  /** `interpolateScaling` as written: its boundary test is `key >= size`,
      which the key, being below the size, never meets, so the last key goes
      on to read the key after it. */
  function ScalingAtAsWritten(keys: seq<KeyScale>, key: int, tick: real): Result<Transform>
    requires 0 <= key && Rising(ScaleStamps(keys))
  {
    if key >= |keys| then Err(ReadPastEnd)
    else if key + 1 >= |keys| then Err(ReadPastEnd)
    else
      assert ScaleStamps(keys)[key] < ScaleStamps(keys)[key + 1];
      Ok([Scaling(Mix(keys[key].scale, keys[key + 1].scale,
                      ScaleFactor(keys[key].tickStamp, keys[key + 1].tickStamp, tick)))])
  }

  /** `interpolateScaling` with the boundary of the other two channels,
      `key >= size - 1`. */
  function ScalingAt(keys: seq<KeyScale>, key: int, tick: real): Transform
    requires 0 <= key < |keys| && Rising(ScaleStamps(keys))
  {
    if key >= |keys| - 1 then [Scaling(keys[key].scale)]
    else
      assert ScaleStamps(keys)[key] < ScaleStamps(keys)[key + 1];
      [Scaling(Mix(keys[key].scale, keys[key + 1].scale,
                   ScaleFactor(keys[key].tickStamp, keys[key + 1].tickStamp, tick)))]
  }

  /** Below the last key the two boundaries agree; at the last key the
      boundary as written reads past the end where the corrected one holds
      the last scale. */
  lemma ScalingBoundary(keys: seq<KeyScale>, key: int, tick: real)
    requires 0 <= key < |keys| && Rising(ScaleStamps(keys))
    ensures key < |keys| - 1 ==> ScalingAtAsWritten(keys, key, tick) == Ok(ScalingAt(keys, key, tick))
    ensures key == |keys| - 1 ==> ScalingAtAsWritten(keys, key, tick) == Err(ReadPastEnd) &&
                                  ScalingAt(keys, key, tick) == [Scaling(keys[key].scale)]
  {
  }

  /** The scale passes through the keys, as the position does. */
  lemma ScalingAtKeys(keys: seq<KeyScale>, key: int)
    requires 0 <= key < |keys| && Rising(ScaleStamps(keys))
    ensures ScalingAt(keys, key, keys[key].tickStamp) == [Scaling(keys[key].scale)]
    ensures key + 1 < |keys| ==> ScalingAt(keys, key, keys[key + 1].tickStamp) == [Scaling(keys[key + 1].scale)]
  {
    if key + 1 < |keys| {
      assert ScaleStamps(keys)[key] < ScaleStamps(keys)[key + 1];
      ScaleFactorFacts(keys[key].tickStamp, keys[key + 1].tickStamp, keys[key].tickStamp);
    }
  }

  // ---------------------------------------------------------------------
  // The composed transformation

  /** What a channel contributes at its cursor: nothing when it has no
      keys, otherwise the key before the cursor interpolated. */
  function PositionPart(keys: seq<KeyPosition>, cursor: int, tick: real): Transform
    requires CursorOk(cursor, |keys|) && Rising(PositionStamps(keys))
  {
    if |keys| == 0 then [] else PositionAt(keys, cursor - 1, tick)
  }

  function RotationPart(keys: seq<KeyRotation>, cursor: int, tick: real): Transform
    requires CursorOk(cursor, |keys|) && Rising(RotationStamps(keys))
  {
    if |keys| == 0 then [] else RotationAt(keys, cursor - 1, tick)
  }

  function ScalingPart(keys: seq<KeyScale>, cursor: int, tick: real): Transform
    requires CursorOk(cursor, |keys|) && Rising(ScaleStamps(keys))
  {
    if |keys| == 0 then [] else ScalingAt(keys, cursor - 1, tick)
  }

  /** The position of a factor in the order `interpolate` multiplies them. */
  function Rank(f: Factor): nat
  {
    match f
    case Scaling(_) => 0
    case Rotation(_) => 1
    case Translation(_) => 2
    case Matrix(_) => 3
  }

  predicate Ordered(t: Transform)
  {
    forall i, j :: 0 <= i < j < |t| ==> Rank(t[i]) <= Rank(t[j])
  }

  /** The value of a keyframe: its three channels and their cursors. */
  datatype Frame = Frame(positions: seq<KeyPosition>, rotations: seq<KeyRotation>, scales: seq<KeyScale>,
                         nextPos: int, nextRot: int, nextScl: int)

  predicate FrameOk(f: Frame)
  {
    CursorOk(f.nextPos, |f.positions|) && CursorOk(f.nextRot, |f.rotations|) && CursorOk(f.nextScl, |f.scales|) &&
    Rising(PositionStamps(f.positions)) && Rising(RotationStamps(f.rotations)) && Rising(ScaleStamps(f.scales))
  }

  /** One call of `interpolate` at the tick: the keys are kept, and each
      channel with keys has its cursor advanced by `get*Index`. */
  function Step(f: Frame, tick: real): Frame
    requires FrameOk(f)
  {
    f.(nextPos := if |f.positions| > 0 then Advance(PositionStamps(f.positions), f.nextPos, tick) else f.nextPos,
       nextRot := if |f.rotations| > 0 then Advance(RotationStamps(f.rotations), f.nextRot, tick) else f.nextRot,
       nextScl := if |f.scales| > 0 then Advance(ScaleStamps(f.scales), f.nextScl, tick) else f.nextScl)
  }

  /** A step keeps the keyframe well formed, keeps its keys, and moves each
      cursor forward by at most one. */
  lemma StepOk(f: Frame, tick: real)
    requires FrameOk(f)
    ensures var g := Step(f, tick);
            FrameOk(g) && g.positions == f.positions && g.rotations == f.rotations && g.scales == f.scales &&
            f.nextPos <= g.nextPos <= f.nextPos + 1 && f.nextRot <= g.nextRot <= f.nextRot + 1 &&
            f.nextScl <= g.nextScl <= f.nextScl + 1
  {
    if |f.positions| > 0 { AdvanceBounds(PositionStamps(f.positions), f.nextPos, tick); }
    if |f.rotations| > 0 { AdvanceBounds(RotationStamps(f.rotations), f.nextRot, tick); }
    if |f.scales| > 0 { AdvanceBounds(ScaleStamps(f.scales), f.nextScl, tick); }
  }

  /** The transformation of a keyframe at its cursors: scaling, then
      rotation, then translation, multiplied onto the identity. */
  function Compose(f: Frame, tick: real): Transform
    requires FrameOk(f)
  {
    ScalingPart(f.scales, f.nextScl, tick) + RotationPart(f.rotations, f.nextRot, tick) +
    PositionPart(f.positions, f.nextPos, tick)
  }

  /** `interpolate` multiplies scaling, then rotation, then translation:
      one factor for each channel that has keys and none for an empty one,
      in that order. */
  lemma ComposeOrdered(f: Frame, tick: real)
    requires FrameOk(f)
    ensures var s := ScalingPart(f.scales, f.nextScl, tick);
            var r := RotationPart(f.rotations, f.nextRot, tick);
            var t := Compose(f, tick);
            Ordered(t) &&
            |s| == (if |f.scales| == 0 then 0 else 1) &&
            |r| == (if |f.rotations| == 0 then 0 else 1) &&
            |t| == |s| + |r| + (if |f.positions| == 0 then 0 else 1) &&
            (forall i :: 0 <= i < |s| ==> t[i].Scaling?) &&
            (forall i :: |s| <= i < |s| + |r| ==> t[i].Rotation?) &&
            (forall i :: |s| + |r| <= i < |t| ==> t[i].Translation?)
  {
  }

  // ---------------------------------------------------------------------
  // The keyframe

  class KeyFrame {
    var positions: seq<KeyPosition>
    var rotations: seq<KeyRotation>
    var scales: seq<KeyScale>
    var nextPos: int
    var nextRot: int
    var nextScl: int

    function State(): Frame
      reads this
    {
      Frame(positions, rotations, scales, nextPos, nextRot, nextScl)
    }

    ghost predicate Valid()
      reads this
    {
      FrameOk(State())
    }

    /** `KeyFrame(channel)`: the channel's keys copied in order, every
        cursor at 1. */
    constructor(channel: AiNodeAnim)
      requires ChannelOk(channel)
      ensures Valid()
      ensures positions == PositionsOf(channel.positionKeys)
      ensures rotations == RotationsOf(channel.rotationKeys)
      ensures scales == ScalesOf(channel.scalingKeys)
      ensures nextPos == 1 && nextRot == 1 && nextScl == 1
    {
      var ps: seq<KeyPosition> := [];
      var i := 0;
      while i < |channel.positionKeys|
        invariant 0 <= i <= |channel.positionKeys| && ps == PositionsOf(channel.positionKeys[..i])
      {
        var k := channel.positionKeys[i];
        ps := ps + [KeyPosition(GetGlmVec(k.value), k.time)];
        i := i + 1;
      }
      assert channel.positionKeys[..i] == channel.positionKeys;
      var rs: seq<KeyRotation> := [];
      i := 0;
      while i < |channel.rotationKeys|
        invariant 0 <= i <= |channel.rotationKeys| && rs == RotationsOf(channel.rotationKeys[..i])
      {
        var k := channel.rotationKeys[i];
        rs := rs + [KeyRotation(GetGlmQuat(k.value), k.time)];
        i := i + 1;
      }
      assert channel.rotationKeys[..i] == channel.rotationKeys;
      var ss: seq<KeyScale> := [];
      i := 0;
      while i < |channel.scalingKeys|
        invariant 0 <= i <= |channel.scalingKeys| && ss == ScalesOf(channel.scalingKeys[..i])
      {
        var k := channel.scalingKeys[i];
        ss := ss + [KeyScale(GetGlmVec(k.value), k.time)];
        i := i + 1;
      }
      assert channel.scalingKeys[..i] == channel.scalingKeys;
      positions, rotations, scales := ps, rs, ss;
      nextPos, nextRot, nextScl := 1, 1, 1;
      assert PositionStamps(ps) == VectorTimes(channel.positionKeys);
      assert RotationStamps(rs) == QuatTimes(channel.rotationKeys);
      assert ScaleStamps(ss) == VectorTimes(channel.scalingKeys);
    }

    /** `getPositionIndex`, with the bound checked first. */
    method GetPositionIndex(curTick: real) returns (key: int)
      requires Valid() && |positions| > 0
      modifies this
      ensures Valid() && nextPos == Advance(PositionStamps(positions), old(nextPos), curTick)
      ensures key == nextPos - 1 && 0 <= key < |positions|
      ensures positions == old(positions) && rotations == old(rotations) && scales == old(scales)
      ensures nextRot == old(nextRot) && nextScl == old(nextScl)
    {
      AdvanceBounds(PositionStamps(positions), nextPos, curTick);
      if nextPos < |positions| && curTick >= positions[nextPos].tickStamp {
        nextPos := nextPos + 1;
      }
      key := nextPos - 1;
    }

    /** `getRotationIndex`, with the bound checked first. */
    method GetRotationIndex(curTick: real) returns (key: int)
      requires Valid() && |rotations| > 0
      modifies this
      ensures Valid() && nextRot == Advance(RotationStamps(rotations), old(nextRot), curTick)
      ensures key == nextRot - 1 && 0 <= key < |rotations|
      ensures positions == old(positions) && rotations == old(rotations) && scales == old(scales)
      ensures nextPos == old(nextPos) && nextScl == old(nextScl)
    {
      AdvanceBounds(RotationStamps(rotations), nextRot, curTick);
      if nextRot < |rotations| && curTick >= rotations[nextRot].tickStamp {
        nextRot := nextRot + 1;
      }
      key := nextRot - 1;
    }

    /** `getScaleIndex`, with the bound checked first. */
    method GetScaleIndex(curTick: real) returns (key: int)
      requires Valid() && |scales| > 0
      modifies this
      ensures Valid() && nextScl == Advance(ScaleStamps(scales), old(nextScl), curTick)
      ensures key == nextScl - 1 && 0 <= key < |scales|
      ensures positions == old(positions) && rotations == old(rotations) && scales == old(scales)
      ensures nextPos == old(nextPos) && nextRot == old(nextRot)
    {
      AdvanceBounds(ScaleStamps(scales), nextScl, curTick);
      if nextScl < |scales| && curTick >= scales[nextScl].tickStamp {
        nextScl := nextScl + 1;
      }
      key := nextScl - 1;
    }

    /** `interpolatePosition`: the identity for an empty channel, otherwise
        the key at the advanced cursor interpolated. */
    method InterpolatePosition(curTick: real) returns (t: Transform)
      requires Valid()
      modifies this
      ensures Valid()
      ensures |positions| == 0 ==> t == [] && nextPos == old(nextPos)
      ensures |positions| > 0 ==> nextPos == Advance(PositionStamps(positions), old(nextPos), curTick)
      ensures t == PositionPart(positions, nextPos, curTick)
      ensures positions == old(positions) && rotations == old(rotations) && scales == old(scales)
      ensures nextRot == old(nextRot) && nextScl == old(nextScl)
    {
      if |positions| == 0 {
        return [];
      }
      var key := GetPositionIndex(curTick);
      if key >= |positions| - 1 {
        return [Translation(positions[key].position)];
      }
      assert PositionStamps(positions)[key] < PositionStamps(positions)[key + 1];
      var factor := ScaleFactor(positions[key].tickStamp, positions[key + 1].tickStamp, curTick);
      t := [Translation(Mix(positions[key].position, positions[key + 1].position, factor))];
    }

    /** `interpolateRotation`: as for positions, with the second
        orientation aligned to the first before the slerp. */
    method InterpolateRotation(curTick: real) returns (t: Transform)
      requires Valid()
      modifies this
      ensures Valid()
      ensures |rotations| == 0 ==> t == [] && nextRot == old(nextRot)
      ensures |rotations| > 0 ==> nextRot == Advance(RotationStamps(rotations), old(nextRot), curTick)
      ensures t == RotationPart(rotations, nextRot, curTick)
      ensures positions == old(positions) && rotations == old(rotations) && scales == old(scales)
      ensures nextPos == old(nextPos) && nextScl == old(nextScl)
    {
      if |rotations| == 0 {
        return [];
      }
      var key := GetRotationIndex(curTick);
      if key >= |rotations| - 1 {
        return [Rotation(Key(rotations[key].orientation))];
      }
      assert RotationStamps(rotations)[key] < RotationStamps(rotations)[key + 1];
      var factor := ScaleFactor(rotations[key].tickStamp, rotations[key + 1].tickStamp, curTick);
      var q1 := rotations[key].orientation;
      var q2 := rotations[key + 1].orientation;
      if QDot(q1, q2) < 0.0 {
        q2 := QNeg(q2);
      }
      t := [Rotation(Slerp(q1, q2, factor))];
    }

    /** `interpolateScaling`, with the boundary `key >= size - 1`. */
    method InterpolateScaling(curTick: real) returns (t: Transform)
      requires Valid()
      modifies this
      ensures Valid()
      ensures |scales| == 0 ==> t == [] && nextScl == old(nextScl)
      ensures |scales| > 0 ==> nextScl == Advance(ScaleStamps(scales), old(nextScl), curTick)
      ensures t == ScalingPart(scales, nextScl, curTick)
      ensures positions == old(positions) && rotations == old(rotations) && scales == old(scales)
      ensures nextPos == old(nextPos) && nextRot == old(nextRot)
    {
      if |scales| == 0 {
        return [];
      }
      var key := GetScaleIndex(curTick);
      if key >= |scales| - 1 {
        return [Scaling(scales[key].scale)];
      }
      assert ScaleStamps(scales)[key] < ScaleStamps(scales)[key + 1];
      var factor := ScaleFactor(scales[key].tickStamp, scales[key + 1].tickStamp, curTick);
      t := [Scaling(Mix(scales[key].scale, scales[key + 1].scale, factor))];
    }

    /** `interpolate`: scaling, rotation and translation multiplied in that
        order onto the identity, each channel advancing its own cursor and
        an empty channel contributing nothing. */
    method Interpolate(curTick: real) returns (t: Transform)
      requires Valid()
      modifies this
      ensures Valid() && State() == Step(old(State()), curTick) && t == Compose(State(), curTick)
    {
      var s, r, p := [], [], [];
      if |scales| > 0 {
        s := InterpolateScaling(curTick);
      }
      if |rotations| > 0 {
        r := InterpolateRotation(curTick);
      }
      if |positions| > 0 {
        p := InterpolatePosition(curTick);
      }
      t := s + r + p;
    }
  }
}
