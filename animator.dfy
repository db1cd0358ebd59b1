/** Skeletal animation on top of a loaded model: the animations read from
    the asset, each a record of its duration, its tick rate and one keyframe
    per animated node; the animator that owns them, picks the current one,
    advances its tick and walks the bone hierarchy to compute one
    transformation per bone. */
module Animators {
  import opened Results
  import opened Linear
  import opened Models
  import opened KeyFrames

  /** assimp's animation as the animator reads it. */
  datatype AiAnimation = AiAnimation(name: string, duration: real, ticksPerSecond: real,
                                     channels: seq<AiNodeAnim>)

  /** `Animation`: its duration, its ticks per second and a keyframe per
      channel name. */
  datatype Animation = Animation(duration: real, ticksPerSecond: real, keyFrames: map<string, KeyFrame>)

  // ---------------------------------------------------------------------
  // Keyed tables filled by `emplace`

  /** The first position holding the name; `emplace` into an empty table,
      one name after the other, keeps the entry made at this position. */
  function FirstIndex(names: seq<string>, name: string): (r: Option<nat>)
    ensures r.Some? ==> r.value < |names| && names[r.value] == name &&
                        forall j :: 0 <= j < r.value ==> names[j] != name
    ensures r.None? ==> forall j :: 0 <= j < |names| ==> names[j] != name
  {
    if |names| == 0 then None
    else if names[0] == name then Some(0)
    else match FirstIndex(names[1..], name)
      case None => None
      case Some(k) => Some(k + 1)
  }

  /** One more name: a name already present keeps its first position, a
      new one is found at the end. */
  lemma FirstIndexStep(names: seq<string>, i: nat, name: string)
    requires i < |names|
    ensures FirstIndex(names[..i + 1], name) ==
            if FirstIndex(names[..i], name).Some? then FirstIndex(names[..i], name)
            else if names[i] == name then Some(i) else None
  {
    var p, q := names[..i], names[..i + 1];
    var a := FirstIndex(p, name);
    assert forall j :: 0 <= j < i ==> q[j] == p[j];
    if a.Some? {
      assert q[a.value] == name;
    } else if names[i] == name {
      assert q[i] == name;
    } else {
      forall j | 0 <= j < |q| ensures q[j] != name {
        if j < i { assert q[j] == p[j]; }
      }
    }
  }

  function ChannelNames(chs: seq<AiNodeAnim>): (s: seq<string>)
    ensures |s| == |chs| && forall i :: 0 <= i < |chs| ==> s[i] == chs[i].nodeName
  {
    seq(|chs|, i requires 0 <= i < |chs| => chs[i].nodeName)
  }

  function AnimationNames(anims: seq<AiAnimation>): (s: seq<string>)
    ensures |s| == |anims| && forall i :: 0 <= i < |anims| ==> s[i] == anims[i].name
  {
    seq(|anims|, i requires 0 <= i < |anims| => anims[i].name)
  }

  /** Different names hold different keyframes. */
  predicate Distinct(kfs: map<string, KeyFrame>)
  {
    forall a, b :: a in kfs && b in kfs && a != b ==> kfs[a] != kfs[b]
  }

  /** A keyframe as `KeyFrame(channel)` leaves it. */
  ghost predicate BuiltFrom(k: KeyFrame, c: AiNodeAnim)
    reads k
  {
    k.positions == PositionsOf(c.positionKeys) && k.rotations == RotationsOf(c.rotationKeys) &&
    k.scales == ScalesOf(c.scalingKeys) && k.nextPos == 1 && k.nextRot == 1 && k.nextScl == 1
  }

  /** What `Animation(animation)` asserts of the animation it reads. */
  predicate AnimationWf(a: AiAnimation)
  {
    a.ticksPerSecond != 0.0 && forall i :: 0 <= i < |a.channels| ==> ChannelOk(a.channels[i])
  }

  /** An animation whose keyframes are distinct and valid. */
  ghost predicate AnimationOk(anim: Animation)
    reads anim.keyFrames.Values
  {
    anim.ticksPerSecond != 0.0 && Distinct(anim.keyFrames) &&
    forall n :: n in anim.keyFrames ==> anim.keyFrames[n].Valid()
  }

  /** `keyFrames.emplace(name, KeyFrame(channel))`: the keyframe is made,
      and entered under the channel's name unless the name is taken. */
  method EmplaceKeyFrame(kfs: map<string, KeyFrame>, c: AiNodeAnim) returns (result: map<string, KeyFrame>)
    requires ChannelOk(c) && Distinct(kfs)
    ensures Distinct(result)
    ensures c.nodeName in kfs ==> result == kfs
    ensures c.nodeName !in kfs ==>
              c.nodeName in result && result == kfs[c.nodeName := result[c.nodeName]] && fresh(result[c.nodeName]) &&
              result[c.nodeName].Valid() && BuiltFrom(result[c.nodeName], c)
  {
    var kf := new KeyFrame(c);
    result := kfs;
    if c.nodeName !in kfs {
      result := kfs[c.nodeName := kf];
    }
  }

  /** The keyframe table after the first `i` channels: distinct valid
      keyframes, one for each channel name so far, built from the first
      channel with that name. */
  ghost predicate Emplaced(kfs: map<string, KeyFrame>, chs: seq<AiNodeAnim>, i: nat)
    reads kfs.Values
    requires i <= |chs|
  {
    Distinct(kfs) &&
    (forall n :: n in kfs <==> FirstIndex(ChannelNames(chs)[..i], n).Some?) &&
    forall n :: n in kfs ==> kfs[n].Valid() && BuiltFrom(kfs[n], chs[FirstIndex(ChannelNames(chs)[..i], n).value])
  }

  /** One more channel emplaced keeps the table as `Emplaced` says. */
  lemma {:induction false} EmplacedNext(kfs: map<string, KeyFrame>, result: map<string, KeyFrame>, chs: seq<AiNodeAnim>, i: nat)
    requires i < |chs| && Emplaced(kfs, chs, i) && Distinct(result)
    requires chs[i].nodeName in kfs ==> result == kfs
    requires chs[i].nodeName !in kfs ==>
               chs[i].nodeName in result && result == kfs[chs[i].nodeName := result[chs[i].nodeName]] &&
               result[chs[i].nodeName].Valid() && BuiltFrom(result[chs[i].nodeName], chs[i])
    ensures Emplaced(result, chs, i + 1)
  {
    var names := ChannelNames(chs);
    forall n
      ensures (n in result <==> FirstIndex(names[..i + 1], n).Some?) &&
              (n in result ==> result[n].Valid() && BuiltFrom(result[n], chs[FirstIndex(names[..i + 1], n).value]))
    {
      FirstIndexStep(names, i, n);
      if n in kfs {
        assert result[n] == kfs[n];
      }
    }
  }

  /** `Animation(animation)`: duration and tick rate copied, and for each
      channel name the keyframe of the first channel with that name, since
      `emplace` leaves an existing entry alone. */
  method MakeAnimation(a: AiAnimation) returns (anim: Animation)
    requires AnimationWf(a)
    ensures anim.duration == a.duration && anim.ticksPerSecond == a.ticksPerSecond
    ensures AnimationOk(anim)
    ensures forall n :: n in anim.keyFrames ==> fresh(anim.keyFrames[n])
    ensures forall n :: n in anim.keyFrames <==> FirstIndex(ChannelNames(a.channels), n).Some?
    ensures forall n :: n in anim.keyFrames ==>
              BuiltFrom(anim.keyFrames[n], a.channels[FirstIndex(ChannelNames(a.channels), n).value])
  {
    var kfs: map<string, KeyFrame> := map[];
    var i := 0;
    while i < |a.channels|
      invariant 0 <= i <= |a.channels|
      invariant Emplaced(kfs, a.channels, i)
      invariant forall n :: n in kfs ==> fresh(kfs[n])
    {
      var next := EmplaceKeyFrame(kfs, a.channels[i]);
      EmplacedNext(kfs, next, a.channels, i);
      kfs := next;
      i := i + 1;
    }
    assert ChannelNames(a.channels)[..i] == ChannelNames(a.channels);
    anim := Animation(a.duration, a.ticksPerSecond, kfs);
  }

  /** An animation made from `a`: its duration and rate copied, and a
      keyframe for each of `a`'s channel names. */
  ghost predicate ReadFrom(anim: Animation, a: AiAnimation)
  {
    anim.duration == a.duration && anim.ticksPerSecond == a.ticksPerSecond &&
    forall c :: c in anim.keyFrames <==> FirstIndex(ChannelNames(a.channels), c).Some?
  }

  /** Every keyframe of every animation is one of `frames`, every
      animation has a rate and distinct keyframes, and every keyframe of
      `frames` is valid. */
  ghost predicate Owns(animations: map<string, Animation>, frames: set<KeyFrame>)
    reads frames
  {
    (forall n, c :: n in animations && c in animations[n].keyFrames ==> animations[n].keyFrames[c] in frames) &&
    (forall n :: n in animations ==> animations[n].ticksPerSecond != 0.0 && Distinct(animations[n].keyFrames)) &&
    (forall k :: k in frames ==> k.Valid())
  }

  /** `emplace(name, Animation(animation))`: the animation is made, and
      entered under its name unless the name is taken. */
  method EmplaceAnimation(animations: map<string, Animation>, ghost frames: set<KeyFrame>, a: AiAnimation)
    returns (result: map<string, Animation>, ghost owned: set<KeyFrame>)
    requires AnimationWf(a) && Owns(animations, frames)
    ensures Owns(result, owned) && frames <= owned
    ensures forall k :: k in owned && k !in frames ==> fresh(k)
    ensures a.name in animations ==> result == animations
    ensures a.name !in animations ==>
              result.Keys == animations.Keys + {a.name} && ReadFrom(result[a.name], a) &&
              forall n :: n in animations ==> result[n] == animations[n]
  {
    var anim := MakeAnimation(a);
    result, owned := animations, frames;
    if a.name !in animations {
      result := animations[a.name := anim];
      owned := frames + anim.keyFrames.Values;
    }
  }

  /** The loop of `readAnimations`: every animation emplaced under its
      name, and the current animation set to the entry under each name in
      turn, so the last name read wins. */
  method ReadAnimations(anims: seq<AiAnimation>)
    returns (animations: map<string, Animation>, cur: Option<string>, ghost frames: set<KeyFrame>)
    requires forall i :: 0 <= i < |anims| ==> AnimationWf(anims[i])
    ensures forall n :: n in animations <==> FirstIndex(AnimationNames(anims), n).Some?
    ensures forall n :: n in animations ==> ReadFrom(animations[n], anims[FirstIndex(AnimationNames(anims), n).value])
    ensures cur == if |anims| == 0 then None else Some(anims[|anims| - 1].name)
    ensures Owns(animations, frames) && forall k :: k in frames ==> fresh(k)
  {
    var names := AnimationNames(anims);
    animations, cur, frames := map[], None, {};
    var i := 0;
    while i < |anims|
      invariant 0 <= i <= |anims|
      invariant forall n :: n in animations <==> FirstIndex(names[..i], n).Some?
      invariant forall n :: n in animations ==> ReadFrom(animations[n], anims[FirstIndex(names[..i], n).value])
      invariant cur == if i == 0 then None else Some(anims[i - 1].name)
      invariant Owns(animations, frames) && forall k :: k in frames ==> fresh(k)
    {
      forall n ensures FirstIndex(names[..i + 1], n) ==
                       if FirstIndex(names[..i], n).Some? then FirstIndex(names[..i], n)
                       else if names[i] == n then Some(i) else None {
        FirstIndexStep(names, i, n);
      }
      animations, frames := EmplaceAnimation(animations, frames, anims[i]);
      cur := Some(anims[i].name);
      i := i + 1;
    }
    assert names[..i] == names;
  }

  // ---------------------------------------------------------------------
  // The tick

  /** The tick after `updateTransforms`: advanced by the elapsed time in
      ticks while it is below the duration, left alone after. */
  function NextTick(tick: real, duration: real, deltaTime: real, ticksPerSecond: real): real
  {
    if tick < duration then tick + deltaTime * ticksPerSecond else tick
  }

  /** The tick never goes back for a non-negative elapsed time and a
      positive rate, and it is a fixed point once it has reached the
      duration. */
  lemma NextTickFacts(tick: real, duration: real, deltaTime: real, ticksPerSecond: real)
    ensures deltaTime >= 0.0 && ticksPerSecond > 0.0 ==> NextTick(tick, duration, deltaTime, ticksPerSecond) >= tick
    ensures tick >= duration ==> NextTick(tick, duration, deltaTime, ticksPerSecond) == tick
  {
    if deltaTime > 0.0 && ticksPerSecond > 0.0 {
      MulPos(deltaTime, ticksPerSecond);
    }
  }

  /** The tick after `n` updates with the same elapsed time. */
  function Ticks(tick: real, duration: real, deltaTime: real, ticksPerSecond: real, n: nat): real
    decreases n
  {
    if n == 0 then tick else Ticks(NextTick(tick, duration, deltaTime, ticksPerSecond), duration, deltaTime, ticksPerSecond, n - 1)
  }

  /** Once the tick has reached the duration, no number of updates moves it. */
  lemma {:induction false} TicksStay(tick: real, duration: real, deltaTime: real, ticksPerSecond: real, n: nat)
    requires tick >= duration
    ensures Ticks(tick, duration, deltaTime, ticksPerSecond, n) == tick
    decreases n
  {
    if n > 0 {
      TicksStay(tick, duration, deltaTime, ticksPerSecond, n - 1);
    }
  }

  /** More updates never give an earlier tick. */
  lemma {:induction false} TicksMonotone(tick: real, duration: real, deltaTime: real, ticksPerSecond: real, m: nat, n: nat)
    requires deltaTime >= 0.0 && ticksPerSecond > 0.0 && m <= n
    ensures Ticks(tick, duration, deltaTime, ticksPerSecond, m) <= Ticks(tick, duration, deltaTime, ticksPerSecond, n)
    decreases n
  {
    if m > 0 {
      NextTickFacts(tick, duration, deltaTime, ticksPerSecond);
      TicksMonotone(NextTick(tick, duration, deltaTime, ticksPerSecond), duration, deltaTime, ticksPerSecond, m - 1, n - 1);
    } else if n > 0 {
      NextTickFacts(tick, duration, deltaTime, ticksPerSecond);
      TicksMonotone(NextTick(tick, duration, deltaTime, ticksPerSecond), duration, deltaTime, ticksPerSecond, 0, n - 1);
    }
  }

  /** The animation ends: `n` updates whose ticks add up to the remaining
      duration bring the tick to the duration. */
  lemma {:induction false} TicksReachEnd(tick: real, duration: real, deltaTime: real, ticksPerSecond: real, n: nat)
    requires tick + (n as real) * (deltaTime * ticksPerSecond) >= duration
    ensures Ticks(tick, duration, deltaTime, ticksPerSecond, n) >= duration
    decreases n
  {
    if n > 0 {
      if tick >= duration {
        TicksStay(tick, duration, deltaTime, ticksPerSecond, n);
      } else {
        var step := deltaTime * ticksPerSecond;
        assert (n as real) * step == ((n - 1) as real) * step + step;
        TicksReachEnd(tick + step, duration, deltaTime, ticksPerSecond, n - 1);
      }
    }
  }

  // ---------------------------------------------------------------------
  // The bone hierarchy

  /** The registry as the animator indexes it: every id is a slot of the
      transform table, every entry is stored under its own name, and no two
      names share a slot. */
  predicate Slotted(bones: map<string, Hierarchy>)
  {
    (forall n :: n in bones ==> 0 <= bones[n].id < |bones| && bones[n].name == n) &&
    (forall a, b :: a in bones && b in bones && bones[a].id == bones[b].id ==> a == b)
  }

  /** The slots of `name` and of every bone reachable from it. */
  ghost function Reach(bones: map<string, Hierarchy>, height: map<string, nat>, name: string): set<int>
    requires Layered(bones, height) && name in bones
    decreases height[name], 1, 0
  {
    {bones[name].id} + ReachAll(bones, height, bones[name].children, height[name])
  }

  /** The slots reachable from the names of `cs`, all lower than `h`. */
  ghost function ReachAll(bones: map<string, Hierarchy>, height: map<string, nat>, cs: seq<string>, h: nat): set<int>
    requires Layered(bones, height)
    requires forall c :: c in cs ==> c in bones && c in height && height[c] < h
    decreases h, 0, |cs|
  {
    if |cs| == 0 then {} else Reach(bones, height, cs[0]) + ReachAll(bones, height, cs[1..], h)
  }

  lemma {:induction false} ReachAllConcat(bones: map<string, Hierarchy>, height: map<string, nat>,
                                          a: seq<string>, b: seq<string>, h: nat)
    requires Layered(bones, height)
    requires forall c :: c in a + b ==> c in bones && c in height && height[c] < h
    ensures ReachAll(bones, height, a + b, h) == ReachAll(bones, height, a, h) + ReachAll(bones, height, b, h)
    decreases |a|
  {
    if |a| == 0 {
      assert a + b == b;
    } else {
      assert (a + b)[1..] == a[1..] + b;
      ReachAllConcat(bones, height, a[1..], b, h);
    }
  }

  /** Visiting one more child adds the slots reachable from it. */
  lemma ReachAllNext(bones: map<string, Hierarchy>, height: map<string, nat>, cs: seq<string>, i: nat, h: nat)
    requires Layered(bones, height) && i < |cs|
    requires forall c :: c in cs ==> c in bones && c in height && height[c] < h
    ensures ReachAll(bones, height, cs[..i + 1], h) == ReachAll(bones, height, cs[..i], h) + Reach(bones, height, cs[i])
  {
    assert cs[..i + 1] == cs[..i] + [cs[i]];
    ReachAllConcat(bones, height, cs[..i], [cs[i]], h);
    assert [cs[i]][1..] == [];
  }

  /** The slots of the bones lower than `h`. */
  ghost function IdsUnder(bones: map<string, Hierarchy>, height: map<string, nat>, h: nat): set<int>
    requires Layered(bones, height)
  {
    set n | n in bones && height[n] < h :: bones[n].id
  }

  lemma {:induction false} ReachUnder(bones: map<string, Hierarchy>, height: map<string, nat>, name: string, h: nat)
    requires Layered(bones, height) && name in bones && height[name] < h
    ensures Reach(bones, height, name) <= IdsUnder(bones, height, h)
    decreases height[name], 1, 0
  {
    ReachAllUnder(bones, height, bones[name].children, height[name], h);
  }

  lemma {:induction false} ReachAllUnder(bones: map<string, Hierarchy>, height: map<string, nat>,
                                         cs: seq<string>, hc: nat, h: nat)
    requires Layered(bones, height) && hc <= h
    requires forall c :: c in cs ==> c in bones && c in height && height[c] < hc
    ensures ReachAll(bones, height, cs, hc) <= IdsUnder(bones, height, h)
    decreases hc, 0, |cs|
  {
    if |cs| > 0 {
      ReachUnder(bones, height, cs[0], h);
      ReachAllUnder(bones, height, cs[1..], hc, h);
    }
  }

  /** The walk below a node never reaches the node's own slot. */
  lemma SlotNotReached(bones: map<string, Hierarchy>, height: map<string, nat>, name: string)
    requires Slotted(bones) && Layered(bones, height) && name in bones
    ensures bones[name].id !in ReachAll(bones, height, bones[name].children, height[name])
  {
    ReachAllUnder(bones, height, bones[name].children, height[name], height[name]);
  }

  /** A mesh registers its bones before the node walk reaches them: the
      root `Scene` holds a mesh whose bone is `Hips`, and `Hips` is the
      child of `Armature`, itself the child of `Scene`. `Hips` gets a lower
      id than its parent, and the registry is still slotted and layered. */
  lemma BoneBeforeParent()
    ensures var b0 := Registered(map[], "Scene", Identity);
            var b1 := Registered(b0, "Hips", Identity);
            var b2 := Registered(b1, "Armature", Identity);
            var b3 := Registered(b2, "Hips", Identity);
            var b4 := b3["Armature" := b3["Armature"].(children := b3["Armature"].children + ["Hips"])];
            var b5 := b4["Scene" := b4["Scene"].(children := b4["Scene"].children + ["Armature"])];
            RegistryOk(b5, ["Scene", "Hips", "Armature"]) && Slotted(b5) &&
            Layered(b5, map["Scene" := 2, "Armature" := 1, "Hips" := 0]) &&
            b5["Hips"].id < b5["Armature"].id
  {
  }

  /** A product that starts with `a` times `x` starts with `a`. */
  lemma PrefixOfConcat(a: Transform, x: Transform, t: Transform)
    requires a + x <= t
    ensures a <= t
  {
    assert t[..|a|] == (a + x)[..|a|];
  }

  /** A slot as `calculateTransform` writes it: a product starting with
      `acc`, times the bone's offset. */
  predicate Shaped(s: Transform, offset: Mat4, acc: Transform)
  {
    |s| > 0 && s[|s| - 1] == Matrix(offset) && acc <= s[..|s| - 1]
  }

  /** `offsets` lists each bone's offset at its id. */
  ghost predicate Matches(bones: map<string, Hierarchy>, offsets: seq<Mat4>)
  {
    Slotted(bones) && |offsets| == |bones| && forall n :: n in bones ==> offsets[bones[n].id] == bones[n].offset
  }

  /** The offsets of a registry in id order. */
  ghost function OffsetTable(bones: map<string, Hierarchy>, order: seq<string>): seq<Mat4>
    requires RegistryOk(bones, order)
  {
    seq(|order|, i requires 0 <= i < |order| => bones[order[i]].offset)
  }

  lemma OffsetTableMatches(bones: map<string, Hierarchy>, order: seq<string>)
    requires RegistryOk(bones, order)
    ensures Matches(bones, OffsetTable(bones, order))
  {
    RegistryDense(bones, order);
    forall n | n in bones
      ensures OffsetTable(bones, order)[bones[n].id] == bones[n].offset
    {
      var j :| 0 <= j < |order| && order[j] == n;
    }
  }

  /** The transform table after a walk that reaches the slots `region`:
      every other slot is as before, and every slot of the region is either
      as before or a product starting with `acc` times the offset of its
      bone. */
  predicate Descends(before: seq<Transform>, after: seq<Transform>, region: set<int>, acc: Transform, offsets: seq<Mat4>)
  {
    |after| == |before| && |offsets| == |before| &&
    (forall k :: 0 <= k < |before| && k !in region ==> after[k] == before[k]) &&
    (forall k :: 0 <= k < |before| && k in region ==> after[k] == before[k] || Shaped(after[k], offsets[k], acc))
  }

  /** Every bone reachable from `name` has its slot written as a product
      starting with `acc` times its own offset. */
  ghost predicate Covered(t: seq<Transform>, bones: map<string, Hierarchy>, height: map<string, nat>,
                          name: string, acc: Transform)
    requires Slotted(bones) && Layered(bones, height) && name in bones && |t| == |bones|
    decreases height[name]
  {
    Shaped(t[bones[name].id], bones[name].offset, acc) &&
    forall c :: c in bones[name].children ==> Covered(t, bones, height, c, acc)
  }

  /** Every name of `cs` is a bone whose subtree is covered with `acc`. */
  ghost predicate AllCovered(t: seq<Transform>, bones: map<string, Hierarchy>, height: map<string, nat>,
                             cs: seq<string>, acc: Transform)
    requires Slotted(bones) && Layered(bones, height) && |t| == |bones|
  {
    forall c :: c in cs ==> c in bones && Covered(t, bones, height, c, acc)
  }

  lemma AllCoveredKept(t1: seq<Transform>, t2: seq<Transform>, bones: map<string, Hierarchy>, height: map<string, nat>,
                       offsets: seq<Mat4>, cs: seq<string>, acc: Transform)
    requires Matches(bones, offsets) && Layered(bones, height) && |t1| == |bones| && |t2| == |bones|
    requires forall k :: 0 <= k < |t1| ==> t2[k] == t1[k] || Shaped(t2[k], offsets[k], acc)
    requires AllCovered(t1, bones, height, cs, acc)
    ensures AllCovered(t2, bones, height, cs, acc)
  {
    forall c | c in cs
      ensures Covered(t2, bones, height, c, acc)
    {
      CoveredKept(t1, t2, bones, height, offsets, c, acc);
    }
  }

  lemma AllCoveredNext(t: seq<Transform>, bones: map<string, Hierarchy>, height: map<string, nat>,
                       cs: seq<string>, i: nat, acc: Transform)
    requires Slotted(bones) && Layered(bones, height) && |t| == |bones| && i < |cs| && cs[i] in bones
    requires AllCovered(t, bones, height, cs[..i], acc) && Covered(t, bones, height, cs[i], acc)
    ensures AllCovered(t, bones, height, cs[..i + 1], acc)
  {
    assert cs[..i + 1] == cs[..i] + [cs[i]];
  }

  /** A slot shaped with a longer product is shaped with a shorter one. */
  lemma ShapedWeaken(s: Transform, offset: Mat4, acc: Transform, x: Transform)
    requires Shaped(s, offset, acc + x)
    ensures Shaped(s, offset, acc)
  {
    PrefixOfConcat(acc, x, s[..|s| - 1]);
  }

  lemma {:induction false} CoveredWeaken(t: seq<Transform>, bones: map<string, Hierarchy>, height: map<string, nat>,
                                         name: string, acc: Transform, x: Transform)
    requires Slotted(bones) && Layered(bones, height) && name in bones && |t| == |bones|
    requires Covered(t, bones, height, name, acc + x)
    ensures Covered(t, bones, height, name, acc)
    decreases height[name]
  {
    var id := bones[name].id;
    ShapedWeaken(t[id], bones[name].offset, acc, x);
    forall c | c in bones[name].children
      ensures Covered(t, bones, height, c, acc)
    {
      CoveredWeaken(t, bones, height, c, acc, x);
    }
  }

  /** Writes that only put products starting with `acc` times the bone's
      offset into slots keep every subtree covered with `acc`. */
  lemma {:induction false} CoveredKept(t1: seq<Transform>, t2: seq<Transform>, bones: map<string, Hierarchy>,
                                       height: map<string, nat>, offsets: seq<Mat4>, name: string, acc: Transform)
    requires Matches(bones, offsets) && Layered(bones, height) && name in bones && |t1| == |bones| && |t2| == |bones|
    requires forall k :: 0 <= k < |t1| ==> t2[k] == t1[k] || Shaped(t2[k], offsets[k], acc)
    requires Covered(t1, bones, height, name, acc)
    ensures Covered(t2, bones, height, name, acc)
    decreases height[name]
  {
    forall c | c in bones[name].children
      ensures Covered(t2, bones, height, c, acc)
    {
      CoveredKept(t1, t2, bones, height, offsets, c, acc);
    }
  }

  /** A walk reaching `r1` with `acc`, then a walk reaching `r2` with `acc`
      extended, together reach `r1 + r2` with `acc`; the second keeps every
      slot outside `r2` and writes only slots shaped with `acc`. */
  lemma DescendsTrans(a: seq<Transform>, b: seq<Transform>, c: seq<Transform>,
                      r1: set<int>, r2: set<int>, acc: Transform, x: Transform, offsets: seq<Mat4>)
    requires Descends(a, b, r1, acc, offsets) && Descends(b, c, r2, acc + x, offsets)
    ensures Descends(a, c, r1 + r2, acc, offsets)
    ensures forall k :: 0 <= k < |b| && k !in r2 ==> c[k] == b[k]
    ensures forall k :: 0 <= k < |b| ==> c[k] == b[k] || Shaped(c[k], offsets[k], acc)
  {
    forall k | 0 <= k < |a| && c[k] != b[k]
      ensures Shaped(c[k], offsets[k], acc)
    {
      ShapedWeaken(c[k], offsets[k], acc, x);
    }
  }

  // ---------------------------------------------------------------------
  // The walk as a function

  /** What `calculateTransform` reads and writes: the transform table and
      the states of the current animation's keyframes, by node name. */
  datatype Pass = Pass(t: seq<Transform>, fs: map<string, Frame>)

  predicate FramesOk(fs: map<string, Frame>)
  {
    forall n :: n in fs ==> FrameOk(fs[n])
  }

  /** `nodeTransform(name)`: the node's keyframe, if it has one,
      interpolated at `tick`; the identity (no factor) otherwise. */
  function PoseIn(fs: map<string, Frame>, name: string, tick: real): Transform
    requires FramesOk(fs)
  {
    if name in fs then Compose(Step(fs[name], tick), tick) else []
  }

  /** The keyframe states after `nodeTransform(name)`: the node's keyframe
      stepped to `tick`, every other one as it was. */
  function Stepped(fs: map<string, Frame>, name: string, tick: real): (r: map<string, Frame>)
    requires FramesOk(fs)
    ensures FramesOk(r) && r.Keys == fs.Keys
    ensures forall n :: n in fs && n != name ==> r[n] == fs[n]
  {
    if name !in fs then fs
    else
      StepOk(fs[name], tick);
      fs[name := Step(fs[name], tick)]
  }

  /** `calculateTransform(name, acc)` on the state `s`: the node's slot
      written with `acc` times its pose times its offset, then the children
      walked in order with `acc` times the pose. */
  function Walk(bones: map<string, Hierarchy>, height: map<string, nat>, tick: real, s: Pass,
                name: string, acc: Transform): (r: Pass)
    requires Slotted(bones) && Layered(bones, height) && name in bones && |s.t| == |bones| && FramesOk(s.fs)
    ensures |r.t| == |s.t| && FramesOk(r.fs) && r.fs.Keys == s.fs.Keys
    decreases height[name], 1, 0
  {
    var node := bones[name];
    var p := acc + PoseIn(s.fs, name, tick);
    WalkAll(bones, height, tick, Pass(s.t[node.id := p + [Matrix(node.offset)]], Stepped(s.fs, name, tick)),
            node.children, p, height[name])
  }

  /** The children `cs` walked in order, each with `acc`. */
  function WalkAll(bones: map<string, Hierarchy>, height: map<string, nat>, tick: real, s: Pass,
                   cs: seq<string>, acc: Transform, h: nat): (r: Pass)
    requires Slotted(bones) && Layered(bones, height) && |s.t| == |bones| && FramesOk(s.fs)
    requires forall c :: c in cs ==> c in bones && c in height && height[c] < h
    ensures |r.t| == |s.t| && FramesOk(r.fs) && r.fs.Keys == s.fs.Keys
    decreases h, 0, |cs|
  {
    if |cs| == 0 then s
    else Walk(bones, height, tick, WalkAll(bones, height, tick, s, cs[..|cs| - 1], acc, h), cs[|cs| - 1], acc)
  }

  /** The names reachable from `name` along child links, itself included. */
  ghost function ReachNames(bones: map<string, Hierarchy>, height: map<string, nat>, name: string): set<string>
    requires Layered(bones, height) && name in bones
    decreases height[name], 1, 0
  {
    {name} + ReachNamesAll(bones, height, bones[name].children, height[name])
  }

  /** The names reachable from the names of `cs`, all lower than `h`. */
  ghost function ReachNamesAll(bones: map<string, Hierarchy>, height: map<string, nat>, cs: seq<string>, h: nat): set<string>
    requires Layered(bones, height)
    requires forall c :: c in cs ==> c in bones && c in height && height[c] < h
    decreases h, 0, |cs|
  {
    if |cs| == 0 then {}
    else ReachNamesAll(bones, height, cs[..|cs| - 1], h) + ReachNames(bones, height, cs[|cs| - 1])
  }

  /** A name reachable from a run of children is reachable from one of them. */
  lemma {:induction false} ReachNamesAllAt(bones: map<string, Hierarchy>, height: map<string, nat>,
                                           cs: seq<string>, h: nat, x: string) returns (k: nat)
    requires Layered(bones, height)
    requires forall c :: c in cs ==> c in bones && c in height && height[c] < h
    requires x in ReachNamesAll(bones, height, cs, h)
    ensures k < |cs| && x in ReachNames(bones, height, cs[k])
    decreases |cs|
  {
    var m := |cs| - 1;
    if x in ReachNames(bones, height, cs[m]) {
      k := m;
    } else {
      k := ReachNamesAllAt(bones, height, cs[..m], h, x);
    }
  }

  /** Every name reachable from one child is reachable from the run. */
  lemma {:induction false} ReachNamesAllHas(bones: map<string, Hierarchy>, height: map<string, nat>,
                                            cs: seq<string>, h: nat, k: nat)
    requires Layered(bones, height) && k < |cs|
    requires forall c :: c in cs ==> c in bones && c in height && height[c] < h
    ensures ReachNames(bones, height, cs[k]) <= ReachNamesAll(bones, height, cs, h)
    decreases |cs|
  {
    var m := |cs| - 1;
    if k < m {
      ReachNamesAllHas(bones, height, cs[..m], h, k);
    }
  }

  /** The names reachable from a child are reachable from the parent. */
  lemma ReachNamesChild(bones: map<string, Hierarchy>, height: map<string, nat>, name: string, k: nat)
    requires Layered(bones, height) && name in bones && k < |bones[name].children|
    ensures ReachNames(bones, height, bones[name].children[k]) <= ReachNames(bones, height, name)
  {
    ReachNamesAllHas(bones, height, bones[name].children, height[name], k);
  }

  /** Every name reachable from `name` is a bone, and lies lower unless it
      is `name` itself. */
  lemma {:induction false} ReachNamesUnder(bones: map<string, Hierarchy>, height: map<string, nat>, name: string)
    requires Layered(bones, height) && name in bones
    ensures forall x :: x in ReachNames(bones, height, name) ==>
              x in bones && x in height && (x == name || height[x] < height[name])
    decreases height[name], 1, 0
  {
    ReachNamesAllUnder(bones, height, bones[name].children, height[name]);
  }

  lemma {:induction false} ReachNamesAllUnder(bones: map<string, Hierarchy>, height: map<string, nat>,
                                              cs: seq<string>, h: nat)
    requires Layered(bones, height)
    requires forall c :: c in cs ==> c in bones && c in height && height[c] < h
    ensures forall x :: x in ReachNamesAll(bones, height, cs, h) ==> x in bones && x in height && height[x] < h
    decreases h, 0, |cs|
  {
    if |cs| > 0 {
      ReachNamesAllUnder(bones, height, cs[..|cs| - 1], h);
      ReachNamesUnder(bones, height, cs[|cs| - 1]);
    }
  }

  /** The subtrees below two different children of a node share no bone:
      the walk from a node reaches every bone at most once. */
  ghost predicate Branching(bones: map<string, Hierarchy>, height: map<string, nat>)
    requires Layered(bones, height)
  {
    forall n, i, j :: n in bones && 0 <= i < j < |bones[n].children| ==>
      ReachNames(bones, height, bones[n].children[i]) !! ReachNames(bones, height, bones[n].children[j])
  }

  /** In a forest, a bone reachable from `a` below `a` has its one parent
      reachable from `a` too. */
  lemma {:induction false} ParentReached(bones: map<string, Hierarchy>, height: map<string, nat>,
                                         a: string, y: string, p: string, i: nat)
    requires Layered(bones, height) && Parented(bones) && a in bones && p in bones
    requires y in ReachNames(bones, height, a) && y != a && i < |bones[p].children| && bones[p].children[i] == y
    ensures p in ReachNames(bones, height, a)
    decreases height[a]
  {
    var cs := bones[a].children;
    var k := ReachNamesAllAt(bones, height, cs, height[a], y);
    ReachNamesChild(bones, height, a, k);
    if y != cs[k] {
      ParentReached(bones, height, cs[k], y, p, i);
    }
  }

  /** In a forest, two bones reaching a common bone are one above the other. */
  lemma {:induction false} Comparable(bones: map<string, Hierarchy>, height: map<string, nat>, a: string, b: string, x: string)
    requires Layered(bones, height) && Parented(bones) && a in bones && b in bones
    requires x in ReachNames(bones, height, a) && x in ReachNames(bones, height, b) && height[a] <= height[b]
    ensures a in ReachNames(bones, height, b)
    decreases height[a] + height[b]
  {
    ReachNamesUnder(bones, height, a);
    ReachNamesUnder(bones, height, b);
    if x != b {
      var cs := bones[b].children;
      var k := ReachNamesAllAt(bones, height, cs, height[b], x);
      var cb := cs[k];
      ReachNamesChild(bones, height, b, k);
      if height[a] <= height[cb] {
        Comparable(bones, height, a, cb, x);
      } else {
        Comparable(bones, height, cb, a, x);
        ParentReached(bones, height, a, cb, b, k);
      }
    }
  }

  /** A forest branches: the tree hypothesis of the walk. */
  lemma ParentedBranching(bones: map<string, Hierarchy>, height: map<string, nat>)
    requires Layered(bones, height) && Parented(bones)
    ensures Branching(bones, height)
  {
    forall n, i, j | n in bones && 0 <= i < j < |bones[n].children|
      ensures ReachNames(bones, height, bones[n].children[i]) !! ReachNames(bones, height, bones[n].children[j])
    {
      var ci, cj := bones[n].children[i], bones[n].children[j];
      ReachNamesUnder(bones, height, ci);
      ReachNamesUnder(bones, height, cj);
      if x :| x in ReachNames(bones, height, ci) && x in ReachNames(bones, height, cj) {
        if height[ci] <= height[cj] {
          Comparable(bones, height, ci, cj, x);
          ParentReached(bones, height, cj, ci, n, i);
        } else {
          Comparable(bones, height, cj, ci, x);
          ParentReached(bones, height, ci, cj, n, j);
        }
        assert false;
      }
    }
  }

  /** The walk from `name` leaves the slot and the keyframe state of every
      bone it does not reach as they were. */
  lemma {:induction false} WalkFrame(bones: map<string, Hierarchy>, height: map<string, nat>, tick: real, s: Pass,
                                     name: string, acc: Transform)
    requires Slotted(bones) && Layered(bones, height) && name in bones && |s.t| == |bones| && FramesOk(s.fs)
    ensures var r := Walk(bones, height, tick, s, name, acc);
            (forall x :: x in bones && x !in ReachNames(bones, height, name) ==> r.t[bones[x].id] == s.t[bones[x].id]) &&
            (forall x :: x in s.fs && x !in ReachNames(bones, height, name) ==> r.fs[x] == s.fs[x])
    decreases height[name], 1, 0
  {
    var node := bones[name];
    var p := acc + PoseIn(s.fs, name, tick);
    var s1 := Pass(s.t[node.id := p + [Matrix(node.offset)]], Stepped(s.fs, name, tick));
    WalkAllFrame(bones, height, tick, s1, node.children, p, height[name]);
  }

  lemma {:induction false} WalkAllFrame(bones: map<string, Hierarchy>, height: map<string, nat>, tick: real, s: Pass,
                                        cs: seq<string>, acc: Transform, h: nat)
    requires Slotted(bones) && Layered(bones, height) && |s.t| == |bones| && FramesOk(s.fs)
    requires forall c :: c in cs ==> c in bones && c in height && height[c] < h
    ensures var r := WalkAll(bones, height, tick, s, cs, acc, h);
            (forall x :: x in bones && x !in ReachNamesAll(bones, height, cs, h) ==> r.t[bones[x].id] == s.t[bones[x].id]) &&
            (forall x :: x in s.fs && x !in ReachNamesAll(bones, height, cs, h) ==> r.fs[x] == s.fs[x])
    decreases h, 0, |cs|
  {
    if |cs| > 0 {
      var m := |cs| - 1;
      WalkAllFrame(bones, height, tick, s, cs[..m], acc, h);
      WalkFrame(bones, height, tick, WalkAll(bones, height, tick, s, cs[..m], acc, h), cs[m], acc);
    }
  }

  /** The children of a node reach pairwise disjoint sets of bones. */
  ghost predicate Apart(bones: map<string, Hierarchy>, height: map<string, nat>, cs: seq<string>)
    requires Layered(bones, height) && forall c :: c in cs ==> c in bones
  {
    forall i, j :: 0 <= i < j < |cs| ==> ReachNames(bones, height, cs[i]) !! ReachNames(bones, height, cs[j])
  }

  /** In a branching hierarchy the walk from `name` steps the keyframe of
      every bone it reaches exactly once, and no other. */
  lemma {:induction false} WalkSteps(bones: map<string, Hierarchy>, height: map<string, nat>, tick: real, s: Pass,
                                     name: string, acc: Transform)
    requires Slotted(bones) && Layered(bones, height) && name in bones && |s.t| == |bones| && FramesOk(s.fs)
    requires Branching(bones, height)
    ensures var r := Walk(bones, height, tick, s, name, acc);
            forall x :: x in s.fs ==>
              r.fs[x] == if x in ReachNames(bones, height, name) then Step(s.fs[x], tick) else s.fs[x]
    decreases height[name], 1, 0
  {
    var node := bones[name];
    var p := acc + PoseIn(s.fs, name, tick);
    var s1 := Pass(s.t[node.id := p + [Matrix(node.offset)]], Stepped(s.fs, name, tick));
    var below := ReachNamesAll(bones, height, node.children, height[name]);
    var r := WalkAll(bones, height, tick, s1, node.children, p, height[name]);
    assert Apart(bones, height, node.children);
    WalkAllSteps(bones, height, tick, s1, node.children, p, height[name]);
    ReachNamesAllUnder(bones, height, node.children, height[name]);
    assert ReachNames(bones, height, name) == {name} + below && name !in below;
    forall x | x in s.fs
      ensures r.fs[x] == if x in ReachNames(bones, height, name) then Step(s.fs[x], tick) else s.fs[x]
    {
      if x != name {
        assert s1.fs[x] == s.fs[x];
      }
    }
  }

  lemma {:induction false} WalkAllSteps(bones: map<string, Hierarchy>, height: map<string, nat>, tick: real, s: Pass,
                                        cs: seq<string>, acc: Transform, h: nat)
    requires Slotted(bones) && Layered(bones, height) && |s.t| == |bones| && FramesOk(s.fs)
    requires forall c :: c in cs ==> c in bones && c in height && height[c] < h
    requires Branching(bones, height) && Apart(bones, height, cs)
    ensures var r := WalkAll(bones, height, tick, s, cs, acc, h);
            forall x :: x in s.fs ==>
              r.fs[x] == if x in ReachNamesAll(bones, height, cs, h) then Step(s.fs[x], tick) else s.fs[x]
    decreases h, 0, |cs|
  {
    if |cs| > 0 {
      var m := |cs| - 1;
      var r1 := WalkAll(bones, height, tick, s, cs[..m], acc, h);
      WalkAllSteps(bones, height, tick, s, cs[..m], acc, h);
      WalkSteps(bones, height, tick, r1, cs[m], acc);
      forall x | x in ReachNames(bones, height, cs[m]) && x in ReachNamesAll(bones, height, cs[..m], h)
        ensures false
      {
        var k := ReachNamesAllAt(bones, height, cs[..m], h, x);
      }
    }
  }

  /** Every bone reachable from `name` has its slot at the product of
      `acc`, the poses of the nodes from `name` down to it (as the
      keyframe states `fs` give them at `tick`), and its own offset. */
  ghost predicate Exact(t: seq<Transform>, bones: map<string, Hierarchy>, height: map<string, nat>,
                        fs: map<string, Frame>, tick: real, name: string, acc: Transform)
    requires Slotted(bones) && Layered(bones, height) && name in bones && |t| == |bones| && FramesOk(fs)
    decreases height[name]
  {
    var p := acc + PoseIn(fs, name, tick);
    t[bones[name].id] == p + [Matrix(bones[name].offset)] &&
    forall c :: c in bones[name].children ==> Exact(t, bones, height, fs, tick, c, p)
  }

  /** Exactness below `name` depends only on the slots and the keyframe
      states of the bones reachable from it. */
  lemma {:induction false} ExactAgree(t1: seq<Transform>, t2: seq<Transform>, bones: map<string, Hierarchy>,
                                      height: map<string, nat>, fs1: map<string, Frame>, fs2: map<string, Frame>,
                                      tick: real, name: string, acc: Transform)
    requires Slotted(bones) && Layered(bones, height) && name in bones && |t1| == |bones| && |t2| == |bones|
    requires FramesOk(fs1) && FramesOk(fs2)
    requires forall x :: x in ReachNames(bones, height, name) ==>
               x in bones && t1[bones[x].id] == t2[bones[x].id] && (x in fs1 <==> x in fs2) && (x in fs1 ==> fs1[x] == fs2[x])
    requires Exact(t1, bones, height, fs1, tick, name, acc)
    ensures Exact(t2, bones, height, fs2, tick, name, acc)
    decreases height[name]
  {
    var p := acc + PoseIn(fs1, name, tick);
    assert p == acc + PoseIn(fs2, name, tick);
    forall c | c in bones[name].children
      ensures Exact(t2, bones, height, fs2, tick, c, p)
    {
      var k :| 0 <= k < |bones[name].children| && bones[name].children[k] == c;
      ReachNamesChild(bones, height, name, k);
      ExactAgree(t1, t2, bones, height, fs1, fs2, tick, c, p);
    }
  }

  /** In a branching hierarchy the walk from `name` leaves every bone it
      reaches at its exact product, computed from the keyframe states the
      walk starts from. */
  lemma {:induction false} WalkExact(bones: map<string, Hierarchy>, height: map<string, nat>, tick: real, s: Pass,
                                     name: string, acc: Transform)
    requires Slotted(bones) && Layered(bones, height) && name in bones && |s.t| == |bones| && FramesOk(s.fs)
    requires Branching(bones, height)
    ensures Exact(Walk(bones, height, tick, s, name, acc).t, bones, height, s.fs, tick, name, acc)
    decreases height[name], 1, 0
  {
    var node := bones[name];
    var p := acc + PoseIn(s.fs, name, tick);
    var s1 := Pass(s.t[node.id := p + [Matrix(node.offset)]], Stepped(s.fs, name, tick));
    var r := WalkAll(bones, height, tick, s1, node.children, p, height[name]);
    WalkAllExact(bones, height, tick, s1, node.children, p, height[name]);
    WalkAllFrame(bones, height, tick, s1, node.children, p, height[name]);
    ReachNamesAllUnder(bones, height, node.children, height[name]);
    forall c | c in node.children
      ensures Exact(r.t, bones, height, s.fs, tick, c, p)
    {
      var k :| 0 <= k < |node.children| && node.children[k] == c;
      ReachNamesAllHas(bones, height, node.children, height[name], k);
      ExactAgree(r.t, r.t, bones, height, s1.fs, s.fs, tick, c, p);
    }
  }

  lemma {:induction false} WalkAllExact(bones: map<string, Hierarchy>, height: map<string, nat>, tick: real, s: Pass,
                                        cs: seq<string>, acc: Transform, h: nat)
    requires Slotted(bones) && Layered(bones, height) && |s.t| == |bones| && FramesOk(s.fs)
    requires forall c :: c in cs ==> c in bones && c in height && height[c] < h
    requires Branching(bones, height) && Apart(bones, height, cs)
    ensures forall k :: 0 <= k < |cs| ==> Exact(WalkAll(bones, height, tick, s, cs, acc, h).t, bones, height, s.fs, tick, cs[k], acc)
    decreases h, 0, |cs|
  {
    if |cs| > 0 {
      var m := |cs| - 1;
      ApartLast(bones, height, cs, h);
      var r1 := WalkAll(bones, height, tick, s, cs[..m], acc, h);
      WalkAllExact(bones, height, tick, s, cs[..m], acc, h);
      forall k | 0 <= k < m
        ensures Exact(r1.t, bones, height, s.fs, tick, cs[k], acc)
      {
        assert cs[..m][k] == cs[k];
      }
      WalkExact(bones, height, tick, r1, cs[m], acc);
      ExactStep(bones, height, tick, s, cs, acc, h);
    }
  }

  /** Children apart: the ones before the last are apart, and none of them
      reaches a name the last one reaches. */
  lemma {:induction false} ApartLast(bones: map<string, Hierarchy>, height: map<string, nat>, cs: seq<string>, h: nat)
    requires Layered(bones, height) && |cs| > 0
    requires forall c :: c in cs ==> c in bones && c in height && height[c] < h
    requires Apart(bones, height, cs)
    ensures Apart(bones, height, cs[..|cs| - 1])
    ensures ReachNamesAll(bones, height, cs[..|cs| - 1], h) !! ReachNames(bones, height, cs[|cs| - 1])
  {
    var m := |cs| - 1;
    forall x | x in ReachNames(bones, height, cs[m]) && x in ReachNamesAll(bones, height, cs[..m], h)
      ensures false
    {
      var k := ReachNamesAllAt(bones, height, cs[..m], h, x);
    }
  }

  /** The step of `WalkAllExact`: exactness of the earlier children and of
      the last one, each from the states the walk over all of them starts
      from. */
  lemma {:induction false} ExactStep(bones: map<string, Hierarchy>, height: map<string, nat>, tick: real, s: Pass,
                                     cs: seq<string>, acc: Transform, h: nat)
    requires Slotted(bones) && Layered(bones, height) && |s.t| == |bones| && FramesOk(s.fs) && |cs| > 0
    requires forall c :: c in cs ==> c in bones && c in height && height[c] < h
    requires ReachNamesAll(bones, height, cs[..|cs| - 1], h) !! ReachNames(bones, height, cs[|cs| - 1])
    requires var r1 := WalkAll(bones, height, tick, s, cs[..|cs| - 1], acc, h);
             (forall k :: 0 <= k < |cs| - 1 ==> Exact(r1.t, bones, height, s.fs, tick, cs[k], acc)) &&
             Exact(Walk(bones, height, tick, r1, cs[|cs| - 1], acc).t, bones, height, r1.fs, tick, cs[|cs| - 1], acc)
    ensures forall k :: 0 <= k < |cs| ==> Exact(WalkAll(bones, height, tick, s, cs, acc, h).t, bones, height, s.fs, tick, cs[k], acc)
  {
    var m := |cs| - 1;
    var r1 := WalkAll(bones, height, tick, s, cs[..m], acc, h);
    var r := Walk(bones, height, tick, r1, cs[m], acc);
    assert WalkAll(bones, height, tick, s, cs, acc, h) == r;
    WalkFrame(bones, height, tick, r1, cs[m], acc);
    LastAgree(bones, height, tick, s, cs, acc, h);
    forall k | 0 <= k < m
      ensures ReachNames(bones, height, cs[k]) !! ReachNames(bones, height, cs[m])
    {
      assert cs[..m][k] == cs[k];
      ReachNamesAllHas(bones, height, cs[..m], h, k);
    }
    ExactJoin(bones, height, tick, s.fs, r1, r, cs, acc);
  }

  /** Exactness of the children before the last carried past the walk of
      the last one, which writes only what the last one reaches, and the
      last one's exactness moved to the states before the earlier walks,
      which those left alone on what it reaches. */
  lemma {:induction false} ExactJoin(bones: map<string, Hierarchy>, height: map<string, nat>, tick: real,
                                     fs: map<string, Frame>, r1: Pass, r: Pass, cs: seq<string>, acc: Transform)
    requires Slotted(bones) && Layered(bones, height) && FramesOk(fs) && FramesOk(r1.fs) && |cs| > 0
    requires |r1.t| == |bones| && |r.t| == |bones| && forall c :: c in cs ==> c in bones
    requires forall x :: x in bones && x !in ReachNames(bones, height, cs[|cs| - 1]) ==> r.t[bones[x].id] == r1.t[bones[x].id]
    requires forall x :: x in ReachNames(bones, height, cs[|cs| - 1]) ==>
               x in bones && (x in r1.fs <==> x in fs) && (x in r1.fs ==> r1.fs[x] == fs[x])
    requires forall k :: 0 <= k < |cs| - 1 ==> ReachNames(bones, height, cs[k]) !! ReachNames(bones, height, cs[|cs| - 1])
    requires forall k :: 0 <= k < |cs| - 1 ==> Exact(r1.t, bones, height, fs, tick, cs[k], acc)
    requires Exact(r.t, bones, height, r1.fs, tick, cs[|cs| - 1], acc)
    ensures forall k :: 0 <= k < |cs| ==> Exact(r.t, bones, height, fs, tick, cs[k], acc)
  {
    var m := |cs| - 1;
    ExactAgree(r.t, r.t, bones, height, r1.fs, fs, tick, cs[m], acc);
    forall k | 0 <= k < m
      ensures Exact(r.t, bones, height, fs, tick, cs[k], acc)
    {
      ReachNamesUnder(bones, height, cs[k]);
      ExactAgree(r1.t, r.t, bones, height, fs, fs, tick, cs[k], acc);
    }
  }

  /** The walk over the children before the last one leaves the keyframe
      states of the names the last one reaches as they were. */
  lemma {:induction false} LastAgree(bones: map<string, Hierarchy>, height: map<string, nat>, tick: real, s: Pass,
                  cs: seq<string>, acc: Transform, h: nat)
    requires Slotted(bones) && Layered(bones, height) && |s.t| == |bones| && FramesOk(s.fs) && |cs| > 0
    requires forall c :: c in cs ==> c in bones && c in height && height[c] < h
    requires ReachNamesAll(bones, height, cs[..|cs| - 1], h) !! ReachNames(bones, height, cs[|cs| - 1])
    ensures var r1 := WalkAll(bones, height, tick, s, cs[..|cs| - 1], acc, h);
            forall x :: x in ReachNames(bones, height, cs[|cs| - 1]) ==>
              x in bones && (x in r1.fs <==> x in s.fs) && (x in r1.fs ==> r1.fs[x] == s.fs[x])
  {
    var m := |cs| - 1;
    WalkAllFrame(bones, height, tick, s, cs[..m], acc, h);
    ReachNamesUnder(bones, height, cs[m]);
  }

  /** The children of a bone, and those of any prefix of its children
      list, are bones lower than it. */
  lemma ChildrenUnder(bones: map<string, Hierarchy>, height: map<string, nat>, name: string)
    requires Layered(bones, height) && name in bones
    ensures forall c :: c in bones[name].children ==> c in bones && c in height && height[c] < height[name]
    ensures forall i, c :: 0 <= i <= |bones[name].children| && c in bones[name].children[..i] ==>
              c in bones && c in height && height[c] < height[name]
  {
  }

  /** The walk over one more child is the walk over the ones before it,
      followed by that child's walk. */
  lemma WalkAllNext(bones: map<string, Hierarchy>, height: map<string, nat>, tick: real, s: Pass,
                    cs: seq<string>, acc: Transform, h: nat, i: nat)
    requires Slotted(bones) && Layered(bones, height) && |s.t| == |bones| && FramesOk(s.fs) && i < |cs|
    requires forall c :: c in cs ==> c in bones && c in height && height[c] < h
    ensures WalkAll(bones, height, tick, s, cs[..i + 1], acc, h) ==
            Walk(bones, height, tick, WalkAll(bones, height, tick, s, cs[..i], acc, h), cs[i], acc)
  {
    assert cs[..i + 1][..i] == cs[..i];
  }

  /** The walk from `name` writes only slots it reaches, each with a
      product starting with `acc` times the node's pose, and leaves every
      reachable slot so written. */
  lemma {:induction false} WalkCovered(bones: map<string, Hierarchy>, height: map<string, nat>, offsets: seq<Mat4>,
                                       tick: real, s: Pass, name: string, acc: Transform)
    requires Matches(bones, offsets) && Layered(bones, height) && name in bones && |s.t| == |bones| && FramesOk(s.fs)
    ensures var r := Walk(bones, height, tick, s, name, acc);
            var p := acc + PoseIn(s.fs, name, tick);
            r.t[bones[name].id] == p + [Matrix(bones[name].offset)] &&
            Covered(r.t, bones, height, name, p) && Descends(s.t, r.t, Reach(bones, height, name), p, offsets)
    decreases height[name], 1, 0
  {
    var node := bones[name];
    var p := acc + PoseIn(s.fs, name, tick);
    var s1 := Pass(s.t[node.id := p + [Matrix(node.offset)]], Stepped(s.fs, name, tick));
    var r := WalkAll(bones, height, tick, s1, node.children, p, height[name]);
    assert Shaped(s1.t[node.id], offsets[node.id], p) by {
      assert s1.t[node.id][..|p|] == p;
    }
    assert Descends(s.t, s1.t, {node.id}, p, offsets);
    WalkAllCovered(bones, height, offsets, tick, s1, node.children, p, height[name]);
    assert p + [] == p;
    SlotNotReached(bones, height, name);
    DescendsTrans(s.t, s1.t, r.t, {node.id}, ReachAll(bones, height, node.children, height[name]), p, [], offsets);
  }

  lemma {:induction false} WalkAllCovered(bones: map<string, Hierarchy>, height: map<string, nat>, offsets: seq<Mat4>,
                                          tick: real, s: Pass, cs: seq<string>, acc: Transform, h: nat)
    requires Matches(bones, offsets) && Layered(bones, height) && |s.t| == |bones| && FramesOk(s.fs)
    requires forall c :: c in cs ==> c in bones && c in height && height[c] < h
    ensures var r := WalkAll(bones, height, tick, s, cs, acc, h);
            AllCovered(r.t, bones, height, cs, acc) && Descends(s.t, r.t, ReachAll(bones, height, cs, h), acc, offsets)
    decreases h, 0, |cs|
  {
    if |cs| > 0 {
      var m := |cs| - 1;
      var r1 := WalkAll(bones, height, tick, s, cs[..m], acc, h);
      var r := Walk(bones, height, tick, r1, cs[m], acc);
      assert WalkAll(bones, height, tick, s, cs, acc, h) == r;
      WalkAllCovered(bones, height, offsets, tick, s, cs[..m], acc, h);
      WalkCovered(bones, height, offsets, tick, r1, cs[m], acc);
      CoveredJoin(bones, height, offsets, s.t, r1.t, r.t, cs, acc, PoseIn(r1.fs, cs[m], tick), h);
    }
  }

  /** The children before the last covered and descended from `t0` to
      `t1`, and the last one from `t1` to `t2` with a longer product: all
      of them covered and descended from `t0` to `t2`. */
  lemma {:induction false} CoveredJoin(bones: map<string, Hierarchy>, height: map<string, nat>, offsets: seq<Mat4>,
                                       t0: seq<Transform>, t1: seq<Transform>, t2: seq<Transform>,
                                       cs: seq<string>, acc: Transform, pose: Transform, h: nat)
    requires Matches(bones, offsets) && Layered(bones, height) && |t1| == |bones| && |t2| == |bones| && |cs| > 0
    requires forall c :: c in cs ==> c in bones && c in height && height[c] < h
    requires Descends(t0, t1, ReachAll(bones, height, cs[..|cs| - 1], h), acc, offsets)
    requires AllCovered(t1, bones, height, cs[..|cs| - 1], acc)
    requires Descends(t1, t2, Reach(bones, height, cs[|cs| - 1]), acc + pose, offsets)
    requires Covered(t2, bones, height, cs[|cs| - 1], acc + pose)
    ensures AllCovered(t2, bones, height, cs, acc) && Descends(t0, t2, ReachAll(bones, height, cs, h), acc, offsets)
  {
    var m := |cs| - 1;
    DescendsTrans(t0, t1, t2, ReachAll(bones, height, cs[..m], h), Reach(bones, height, cs[m]), acc, pose, offsets);
    ReachAllNext(bones, height, cs, m, h);
    assert cs[..m + 1] == cs;
    CoveredWeaken(t2, bones, height, cs[m], acc, pose);
    AllCoveredKept(t1, t2, bones, height, offsets, cs[..m], acc);
    AllCoveredNext(t2, bones, height, cs, m, acc);
  }

  /** What the visit of one node promises, gathered: its own slot, the
      shape of every reachable slot and the untouched rest, and, when every
      bone has at most one parent, the exact product in every reachable
      slot and one step for exactly the reachable keyframes. */
  lemma {:induction false} WalkFacts(bones: map<string, Hierarchy>, height: map<string, nat>, offsets: seq<Mat4>,
                  tick: real, s: Pass, name: string, acc: Transform)
    requires Matches(bones, offsets) && Layered(bones, height) && name in bones && |s.t| == |bones| && FramesOk(s.fs)
    ensures var r := Walk(bones, height, tick, s, name, acc);
            var p := acc + PoseIn(s.fs, name, tick);
            r.t[bones[name].id] == p + [Matrix(bones[name].offset)] &&
            Covered(r.t, bones, height, name, p) && Descends(s.t, r.t, Reach(bones, height, name), p, offsets) &&
            (Parented(bones) ==>
               Exact(r.t, bones, height, s.fs, tick, name, acc) &&
               forall x :: x in s.fs ==>
                 r.fs[x] == if x in ReachNames(bones, height, name) then Step(s.fs[x], tick) else s.fs[x])
  {
    WalkCovered(bones, height, offsets, tick, s, name, acc);
    if Parented(bones) {
      ParentedBranching(bones, height);
      WalkExact(bones, height, tick, s, name, acc);
      WalkSteps(bones, height, tick, s, name, acc);
    }
  }

  /** The same for the loop over a node's children. */
  lemma {:induction false} WalkAllFacts(bones: map<string, Hierarchy>, height: map<string, nat>, offsets: seq<Mat4>,
                     tick: real, s: Pass, name: string, acc: Transform)
    requires Matches(bones, offsets) && Layered(bones, height) && name in bones && |s.t| == |bones| && FramesOk(s.fs)
    ensures var cs := bones[name].children;
            var r := WalkAll(bones, height, tick, s, cs, acc, height[name]);
            AllCovered(r.t, bones, height, cs, acc) &&
            Descends(s.t, r.t, ReachAll(bones, height, cs, height[name]), acc, offsets) &&
            (Parented(bones) ==>
               (forall k :: 0 <= k < |cs| ==> Exact(r.t, bones, height, s.fs, tick, cs[k], acc)) &&
               forall x :: x in s.fs ==>
                 r.fs[x] == if x in ReachNamesAll(bones, height, cs, height[name]) then Step(s.fs[x], tick) else s.fs[x])
  {
    var cs := bones[name].children;
    WalkAllCovered(bones, height, offsets, tick, s, cs, acc, height[name]);
    if Parented(bones) {
      ParentedBranching(bones, height);
      assert Apart(bones, height, cs);
      WalkAllExact(bones, height, tick, s, cs, acc, height[name]);
      WalkAllSteps(bones, height, tick, s, cs, acc, height[name]);
    }
  }

  /** The states of a table of keyframes, by name. */
  function StatesOf(kfs: map<string, KeyFrame>): map<string, Frame>
    reads kfs.Values
  {
    map n | n in kfs :: kfs[n].State()
  }

  /** A table whose keyframes keep the states `before`, except the one
      under `name` now in state `f`. */
  lemma StepOne(kfs: map<string, KeyFrame>, before: map<string, Frame>, name: string, f: Frame)
    requires name in kfs && before.Keys == kfs.Keys && kfs[name].State() == f
    requires forall m :: m in kfs && m != name ==> kfs[m].State() == before[m]
    ensures StatesOf(kfs) == before[name := f]
  {
    var r := StatesOf(kfs);
    forall m | m in kfs ensures r[m] == before[name := f][m] {
      if m != name {
        assert r[m] == kfs[m].State();
      }
    }
  }

  class Animator {
    const bones: map<string, Hierarchy>
    const root: string
    const animations: map<string, Animation>
    const transforms: array<Transform>
    var curAnim: Option<string>
    var curTick: real
    ghost const frames: set<KeyFrame>
    ghost const offsets: seq<Mat4>
    ghost const height: map<string, nat>

    ghost predicate Valid()
      reads this, frames
    {
      Shape() && Owns(animations, frames)
    }

    /** The part of `Valid` the keyframes play no part in. */
    ghost predicate Shape()
      reads this
    {
      Matches(bones, offsets) && Layered(bones, height) && root in bones && transforms.Length == |bones| &&
      (curAnim.Some? ==> curAnim.value in animations)
    }

    /** The keyframes of the current animation; none without one. */
    function CurFrames(): map<string, KeyFrame>
      reads this
    {
      if curAnim.Some? && curAnim.value in animations then animations[curAnim.value].keyFrames else map[]
    }

    /** The states of the current animation's keyframes, by node name. */
    function FrameStates(): map<string, Frame>
      reads this, frames
      requires Valid()
    {
      StatesOf(CurFrames())
    }

    /** The factor a node multiplies onto its parent's transformation when
        it is visited at the tick: its keyframe stepped once and composed,
        when the current animation has one for it; the identity otherwise. */
    function Pose(name: string, tick: real): Transform
      reads this, frames
      requires Valid()
    {
      PoseIn(FrameStates(), name, tick)
    }

    /** `Animator(model)`: the model's bones and root, the animations read
        from its asset with the last one read current, the tick at 0 and
        one identity transformation per bone. The ghost `levels` witnesses
        that the children lists of the model hold no cycle; a model loaded
        from a node tree whose names are unique has one (`TreeLayered`). */
    constructor(model: Model, anims: seq<AiAnimation>, ghost levels: map<string, nat>)
      requires model.Valid() && model.root.Some? && model.root.value in model.bones && Layered(model.bones, levels)
      requires forall i :: 0 <= i < |anims| ==> AnimationWf(anims[i])
      ensures Valid()
      ensures bones == model.bones && root == model.root.value && curTick == 0.0 && height == levels
      ensures curAnim == if |anims| == 0 then None else Some(anims[|anims| - 1].name)
      ensures forall n :: n in animations <==> FirstIndex(AnimationNames(anims), n).Some?
      ensures forall n :: n in animations ==>
                var a := anims[FirstIndex(AnimationNames(anims), n).value];
                animations[n].duration == a.duration && animations[n].ticksPerSecond == a.ticksPerSecond
      ensures fresh(transforms) && transforms.Length == |bones|
      ensures forall k :: 0 <= k < transforms.Length ==> transforms[k] == []
    {
      var anims0, cur, fs := ReadAnimations(anims);
      bones := model.bones;
      root := model.root.value;
      animations := anims0;
      curAnim := cur;
      curTick := 0.0;
      frames := fs;
      offsets := OffsetTable(model.bones, model.order);
      height := levels;
      OffsetTableMatches(model.bones, model.order);
      transforms := new Transform[|model.bones|](_ => []);
    }

    /** `setCurAnimation`: an animation that exists becomes current; an
        unknown name is an error and changes nothing. The tick is kept. */
    method SetCurAnimation(name: string) returns (r: Result<()>)
      requires Valid()
      modifies this
      ensures Valid()
      ensures name in animations ==> r == Ok(()) && curAnim == Some(name)
      ensures name !in animations ==> r == Err(NotFound) && curAnim == old(curAnim)
      ensures curTick == old(curTick)
    {
      if name !in animations {
        return Err(NotFound);
      }
      curAnim := Some(name);
      r := Ok(());
    }
    /** The factor `calculateTransform` multiplies onto the parent's
        transformation: the node's keyframe in the current animation
        interpolated at the tick, or the identity when there is none. */
    method NodeTransform(name: string) returns (t: Transform)
      requires Valid()
      modifies if name in CurFrames() then {CurFrames()[name]} else {}
      ensures Valid() && t == old(Pose(name, curTick))
      ensures FrameStates() == Stepped(old(FrameStates()), name, curTick)
      ensures name in CurFrames() ==> CurFrames()[name].State() == Step(old(CurFrames()[name].State()), curTick)
      ensures forall m :: m in CurFrames() && m != name ==> unchanged(CurFrames()[m])
    {
      var kfs := CurFrames();
      StatesOk();
      ghost var fs := FrameStates();
      t := [];
      if name in kfs {
        var k := kfs[name];
        assert k in kfs.Values;
        t := k.Interpolate(curTick);
        forall m | m in kfs && m != name ensures unchanged(kfs[m]) && kfs[m].State() == fs[m] {
          assert kfs[m] != k;
        }
        StepOne(kfs, fs, name, k.State());
      }
    }

    /** Every keyframe state of the current animation can be stepped. */
    lemma StatesOk()
      requires Valid()
      ensures FramesOk(FrameStates())
    {
      forall n | n in FrameStates() ensures FrameOk(FrameStates()[n]) {
        assert CurFrames()[n] in frames;
      }
    }

    /** `calculateTransform`: the node's slot gets the parent's
        transformation times the node's own factor times its offset, and
        the children are visited with the parent's transformation times the
        node's factor, without the offset; each keyframe met is stepped. The
        slots and keyframe states afterwards are those of the walk `Walk`
        from the node; when no bone has two parents every reachable slot
        holds its exact product and exactly the reachable keyframes were
        stepped once. */
    method CalculateTransform(name: string, parent: Transform)
      requires Valid() && name in bones
      modifies transforms, CurFrames().Values
      ensures Valid()
      ensures Pass(transforms[..], FrameStates()) ==
              Walk(bones, height, curTick, Pass(old(transforms[..]), old(FrameStates())), name, parent)
      ensures transforms[bones[name].id] == parent + old(Pose(name, curTick)) + [Matrix(bones[name].offset)]
      ensures Covered(transforms[..], bones, height, name, parent + old(Pose(name, curTick)))
      ensures Descends(old(transforms[..]), transforms[..], Reach(bones, height, name),
                       parent + old(Pose(name, curTick)), offsets)
      ensures Parented(bones) ==> Exact(transforms[..], bones, height, old(FrameStates()), curTick, name, parent)
      ensures Parented(bones) ==>
                forall x :: x in old(FrameStates()) ==>
                  FrameStates()[x] ==
                    if x in ReachNames(bones, height, name) then Step(old(FrameStates())[x], curTick) else old(FrameStates())[x]
      decreases height[name], 3
    {
      StatesOk();
      ghost var s0 := Pass(transforms[..], FrameStates());
      var acc := VisitNode(name, parent);
      CalculateChildren(name, acc);
      WalkFacts(bones, height, offsets, curTick, s0, name, parent);
    }

    /** The first half of `calculateTransform`: the node's factor
        multiplied onto the parent's transformation, and the node's slot
        written with that product times its offset. */
    method VisitNode(name: string, parent: Transform) returns (acc: Transform)
      requires Valid() && name in bones
      modifies transforms, CurFrames().Values
      ensures Valid() && acc == parent + old(Pose(name, curTick))
      ensures transforms[..] == old(transforms[..])[bones[name].id := acc + [Matrix(bones[name].offset)]]
      ensures FrameStates() == Stepped(old(FrameStates()), name, curTick)
    {
      ghost var pose := Pose(name, curTick);
      var node := bones[name];
      var t := NodeTransform(name);
      assert t == pose;
      acc := parent + t;
      WriteSlot(node.id, acc + [Matrix(node.offset)]);
    }

    /** `transforms_[id] = ...`: one slot written, the rest kept. */
    method WriteSlot(id: nat, value: Transform)
      requires Valid() && id < transforms.Length
      modifies transforms
      ensures Valid() && FrameStates() == old(FrameStates())
      ensures transforms[..] == old(transforms[..])[id := value]
    {
      transforms[id] := value;
    }

    /** The loop of `calculateTransform` over a node's children, each
        visited with the node's product: the walk `WalkAll` over the
        children, with what that walk promises. */
    method CalculateChildren(name: string, acc: Transform)
      requires Valid() && name in bones
      modifies transforms, CurFrames().Values
      decreases height[name], 2
      ensures Valid()
      ensures Pass(transforms[..], FrameStates()) ==
              WalkAll(bones, height, curTick, Pass(old(transforms[..]), old(FrameStates())), bones[name].children, acc, height[name])
      ensures AllCovered(transforms[..], bones, height, bones[name].children, acc)
      ensures Descends(old(transforms[..]), transforms[..],
                       ReachAll(bones, height, bones[name].children, height[name]), acc, offsets)
      ensures Parented(bones) ==>
                forall k :: 0 <= k < |bones[name].children| ==>
                  Exact(transforms[..], bones, height, old(FrameStates()), curTick, bones[name].children[k], acc)
      ensures Parented(bones) ==>
                forall x :: x in old(FrameStates()) ==>
                  FrameStates()[x] ==
                    if x in ReachNamesAll(bones, height, bones[name].children, height[name])
                    then Step(old(FrameStates())[x], curTick) else old(FrameStates())[x]
    {
      StatesOk();
      ghost var s0 := Pass(transforms[..], FrameStates());
      VisitChildren(name, acc);
      WalkAllFacts(bones, height, offsets, curTick, s0, name, acc);
    }

    /** The loop itself: each child visited in turn with the node's
        product. */
    method VisitChildren(name: string, acc: Transform)
      requires Valid() && name in bones
      modifies transforms, CurFrames().Values
      decreases height[name], 1
      ensures Valid()
      ensures Pass(transforms[..], FrameStates()) ==
              WalkAll(bones, height, curTick, Pass(old(transforms[..]), old(FrameStates())), bones[name].children, acc, height[name])
    {
      StatesOk();
      ghost var s0 := Pass(transforms[..], FrameStates());
      var node := bones[name];
      ChildrenUnder(bones, height, name);
      var i := 0;
      while i < |node.children|
        invariant 0 <= i <= |node.children|
        invariant Valid()
        invariant Pass(transforms[..], FrameStates()) == WalkAll(bones, height, curTick, s0, node.children[..i], acc, height[name])
      {
        VisitChild(name, acc, i, s0);
        i := i + 1;
      }
      assert node.children[..i] == node.children;
    }

    /** One turn of the loop: the walk over the children so far extended by
        the walk of child `i`. */
    method VisitChild(name: string, acc: Transform, i: nat, ghost s0: Pass)
      requires Valid() && name in bones && i < |bones[name].children|
      requires |s0.t| == |bones| && FramesOk(s0.fs)
      requires forall c :: c in bones[name].children ==> c in bones && c in height && height[c] < height[name]
      requires Pass(transforms[..], FrameStates()) ==
               WalkAll(bones, height, curTick, s0, bones[name].children[..i], acc, height[name])
      modifies transforms, CurFrames().Values
      decreases height[name], 0
      ensures Valid()
      ensures Pass(transforms[..], FrameStates()) ==
              WalkAll(bones, height, curTick, s0, bones[name].children[..i + 1], acc, height[name])
    {
      WalkAllNext(bones, height, curTick, s0, bones[name].children, acc, height[name], i);
      CalculateTransform(bones[name].children[i], acc);
    }

    /** `updateTransforms`: without a current animation an error; before
        the end of the current animation every bone's transformation is
        recomputed from the root by the walk `Walk` at the old tick and the
        tick advances by the elapsed time in ticks; at or after the end
        nothing changes. When no bone has two parents, every slot reachable
        from the root then holds exactly the product of the keyframes from
        the root down to it times its offset, and exactly the keyframes of
        the reachable bones were stepped once. */
    method UpdateTransforms(deltaTime: real) returns (r: Result<()>)
      requires Valid()
      modifies this, transforms, CurFrames().Values
      ensures Valid()
      ensures curAnim == old(curAnim)
      ensures curAnim.None? ==> r == Err(NoAnimation) && curTick == old(curTick) && transforms[..] == old(transforms[..])
      ensures curAnim.Some? ==>
                r == Ok(()) &&
                curTick == NextTick(old(curTick), animations[curAnim.value].duration, deltaTime,
                                    animations[curAnim.value].ticksPerSecond)
      ensures curAnim.Some? && old(curTick) >= animations[curAnim.value].duration ==>
                transforms[..] == old(transforms[..]) && forall m :: m in CurFrames() ==> unchanged(CurFrames()[m])
      ensures curAnim.Some? && old(curTick) < animations[curAnim.value].duration ==>
                Pass(transforms[..], FrameStates()) ==
                  Walk(bones, height, old(curTick), Pass(old(transforms[..]), old(FrameStates())), root, []) &&
                transforms[bones[root].id] == old(Pose(root, curTick)) + [Matrix(bones[root].offset)] &&
                Covered(transforms[..], bones, height, root, old(Pose(root, curTick))) &&
                Descends(old(transforms[..]), transforms[..], Reach(bones, height, root), old(Pose(root, curTick)), offsets)
      ensures curAnim.Some? && old(curTick) < animations[curAnim.value].duration && Parented(bones) ==>
                Exact(transforms[..], bones, height, old(FrameStates()), old(curTick), root, []) &&
                forall x :: x in old(FrameStates()) ==>
                  FrameStates()[x] ==
                    if x in ReachNames(bones, height, root) then Step(old(FrameStates())[x], old(curTick)) else old(FrameStates())[x]
    {
      if curAnim.None? {
        return Err(NoAnimation);
      }
      var anim := animations[curAnim.value];
      ghost var tick := curTick;
      if curTick < anim.duration {
        AdvanceFrame(deltaTime * anim.ticksPerSecond);
      }
      assert curTick == NextTick(tick, anim.duration, deltaTime, anim.ticksPerSecond);
      r := Ok(());
    }

    /** The branch of `updateTransforms` before the end of the current
        animation: the walk from the root with the identity, then the tick
        advanced by the elapsed ticks. */
    method AdvanceFrame(elapsed: real)
      requires Valid() && curAnim.Some? && curTick < animations[curAnim.value].duration
      modifies this, transforms, CurFrames().Values
      ensures Valid() && curAnim == old(curAnim)
      ensures curTick == old(curTick) + elapsed
      ensures Pass(transforms[..], FrameStates()) ==
                Walk(bones, height, old(curTick), Pass(old(transforms[..]), old(FrameStates())), root, [])
      ensures transforms[bones[root].id] == old(Pose(root, curTick)) + [Matrix(bones[root].offset)]
      ensures Covered(transforms[..], bones, height, root, old(Pose(root, curTick)))
      ensures Descends(old(transforms[..]), transforms[..], Reach(bones, height, root), old(Pose(root, curTick)), offsets)
      ensures Parented(bones) ==> Exact(transforms[..], bones, height, old(FrameStates()), old(curTick), root, [])
      ensures Parented(bones) ==>
                forall x :: x in old(FrameStates()) ==>
                  FrameStates()[x] ==
                    if x in ReachNames(bones, height, root) then Step(old(FrameStates())[x], old(curTick)) else old(FrameStates())[x]
    {
      ghost var pose := Pose(root, curTick);
      CalculateTransform(root, []);
      assert [] + pose == pose;
      Tick(elapsed);
    }

    /** The tick advanced by the elapsed ticks; the animation and the
        keyframes stay as they are. */
    method Tick(elapsed: real)
      requires Valid()
      modifies this
      ensures Valid() && curAnim == old(curAnim) && curTick == old(curTick) + elapsed
      ensures FrameStates() == old(FrameStates())
    {
      ghost var kfs := CurFrames();
      ghost var fs := StatesOf(kfs);
      curTick := curTick + elapsed;
      assert CurFrames() == kfs && StatesOf(kfs) == fs;
    }
  }
}
