/** The bookkeeping `Model` does while it loads an asset: the vertex loop
    with its running bounds, the four bone slots of every vertex and their
    weight normalisation, the node and bone registry `bonesLoaded_`, the
    index list of a mesh, and texture reuse by path.

    The imported scene is plain input data (`AiScene`, `AiNode`, `AiMesh`);
    loading a texture image is the parameter `textureId`, which gives the
    handle `TextureFromFile` would create for a path. */
module Models {
  import opened Results
  import opened Linear
  import opened Converters

  /** `MAX_BONE_INFLUENCE` */
  const MaxBoneInfluence: nat := 4

  /** The id of a bone slot that holds nothing. */
  const NoBone: int := -1

  datatype Vec2 = Vec2(x: real, y: real)

  datatype Vertex = Vertex(position: Vec3, normal: Vec3, texCoords: Vec2, tangent: Vec3,
                           bitangent: Vec3, boneIds: seq<int>, weights: seq<real>)

  datatype Texture = Texture(id: nat, kind: string, path: string)

  datatype Mesh = Mesh(vertices: seq<Vertex>, indices: seq<nat>, textures: seq<Texture>,
                       min: Vec3, max: Vec3, name: string)

  /** A registry entry; `children` names the entries of the child nodes. */
  datatype Hierarchy = Hierarchy(id: int, offset: Mat4, name: string, children: seq<string>)

  datatype AiWeight = AiWeight(vertexId: nat, weight: real)

  datatype AiBone = AiBone(name: string, offset: AiMatrix, weights: seq<AiWeight>)

  /** The optional per-vertex arrays are None where assimp has no such array. */
  datatype AiMesh = AiMesh(
    name: string,
    vertices: seq<AiVector3D>,
    normals: Option<seq<AiVector3D>>,
    texCoords: Option<seq<AiVector3D>>,
    tangents: Option<seq<AiVector3D>>,
    bitangents: Option<seq<AiVector3D>>,
    bones: seq<AiBone>,
    faces: seq<seq<nat>>,
    materialIndex: nat)

  /** The texture paths of a material, by assimp texture type. */
  datatype AiMaterial = AiMaterial(diffuse: seq<string>, specular: seq<string>,
                                   height: seq<string>, ambient: seq<string>)

  datatype AiNode = AiNode(name: string, transformation: AiMatrix, meshes: seq<nat>, children: seq<AiNode>)

  datatype AiScene = AiScene(meshes: seq<AiMesh>, materials: seq<AiMaterial>)

  /** What assimp guarantees about a mesh: every per-vertex array is as long
      as the vertex array, every weight names an existing vertex and the
      material exists. */
  predicate MeshWf(m: AiMesh, materials: nat)
  {
    VerticesWf(m) && m.materialIndex < materials
  }

  predicate VerticesWf(m: AiMesh)
  {
    (m.normals.Some? ==> |m.normals.value| >= |m.vertices|) &&
    (m.texCoords.Some? ==> |m.texCoords.value| >= |m.vertices|) &&
    (m.tangents.Some? ==> |m.tangents.value| >= |m.vertices|) &&
    (m.bitangents.Some? ==> |m.bitangents.value| >= |m.vertices|) &&
    (forall b, j :: 0 <= b < |m.bones| && 0 <= j < |m.bones[b].weights| ==>
       m.bones[b].weights[j].vertexId < |m.vertices|)
  }

  predicate SceneWf(scene: AiScene)
  {
    forall k :: 0 <= k < |scene.meshes| ==> MeshWf(scene.meshes[k], |scene.materials|)
  }

  /** Every mesh index of the node and of its descendants is in range. */
  predicate NodeWf(node: AiNode, meshes: nat)
  {
    (forall k :: 0 <= k < |node.meshes| ==> node.meshes[k] < meshes) &&
    (forall c :: 0 <= c < |node.children| ==> NodeWf(node.children[c], meshes))
  }

  // ---------------------------------------------------------------------
  // Bounds

  /** Componentwise `a <= b`. */
  predicate Below(a: Vec3, b: Vec3)
  {
    a.x <= b.x && a.y <= b.y && a.z <= b.z
  }

  function VMin(a: Vec3, b: Vec3): Vec3 { Vec3(Min(a.x, b.x), Min(a.y, b.y), Min(a.z, b.z)) }

  function VMax(a: Vec3, b: Vec3): Vec3 { Vec3(Max(a.x, b.x), Max(a.y, b.y), Max(a.z, b.z)) }

  /** `mn` and `mx` are the componentwise minimum and maximum of `ps`: below
      and above every point, and each component taken from some point. */
  ghost predicate IsBounds(ps: seq<Vec3>, mn: Vec3, mx: Vec3)
  {
    (forall i :: 0 <= i < |ps| ==> Below(mn, ps[i]) && Below(ps[i], mx)) &&
    (exists i :: 0 <= i < |ps| && mn.x == ps[i].x) &&
    (exists i :: 0 <= i < |ps| && mn.y == ps[i].y) &&
    (exists i :: 0 <= i < |ps| && mn.z == ps[i].z) &&
    (exists i :: 0 <= i < |ps| && mx.x == ps[i].x) &&
    (exists i :: 0 <= i < |ps| && mx.y == ps[i].y) &&
    (exists i :: 0 <= i < |ps| && mx.z == ps[i].z)
  }

  function Positions(m: AiMesh): (ps: seq<Vec3>)
    ensures |ps| == |m.vertices|
  {
    seq(|m.vertices|, i requires 0 <= i < |m.vertices| => GetGlmVec(m.vertices[i]))
  }

  // ---------------------------------------------------------------------
  // Vertices

  /** Slot k is taken when its id is not NoBone. */
  predicate HasSlots(v: Vertex)
  {
    |v.boneIds| == MaxBoneInfluence && |v.weights| == MaxBoneInfluence
  }

  /** The vertex as the first loop of `processVertices` leaves it. */
  function BaseVertex(m: AiMesh, i: nat): Vertex
    requires VerticesWf(m) && i < |m.vertices|
  {
    Vertex(
      GetGlmVec(m.vertices[i]),
      if m.normals.Some? then GetGlmVec(m.normals.value[i]) else Zero,
      if m.texCoords.Some? then Vec2(m.texCoords.value[i].x, m.texCoords.value[i].y) else Vec2(0.0, 0.0),
      if m.tangents.Some? then GetGlmVec(m.tangents.value[i]) else Zero,
      if m.bitangents.Some? then GetGlmVec(m.bitangents.value[i]) else Zero,
      [NoBone, NoBone, NoBone, NoBone],
      [0.0, 0.0, 0.0, 0.0])
  }

  /** A vertex starts at its position, with the mesh's normal, texture
      coordinates, tangent and bitangent or zero where the mesh has none,
      with every bone slot free and (from `resize`) every weight zero. */
  lemma BaseVertexDefaults(m: AiMesh, i: nat)
    requires VerticesWf(m) && i < |m.vertices|
    ensures var v := BaseVertex(m, i);
            v.position == Positions(m)[i] &&
            (m.normals.None? ==> v.normal == Zero) &&
            (m.normals.Some? ==> v.normal == GetGlmVec(m.normals.value[i])) &&
            (m.texCoords.None? ==> v.texCoords == Vec2(0.0, 0.0)) &&
            (m.texCoords.Some? ==> v.texCoords == Vec2(m.texCoords.value[i].x, m.texCoords.value[i].y)) &&
            (m.tangents.None? ==> v.tangent == Zero) &&
            (m.tangents.Some? ==> v.tangent == GetGlmVec(m.tangents.value[i])) &&
            (m.bitangents.None? ==> v.bitangent == Zero) &&
            (m.bitangents.Some? ==> v.bitangent == GetGlmVec(m.bitangents.value[i])) &&
            HasSlots(v) && FirstFree(v.boneIds) == 0 &&
            forall k :: 0 <= k < MaxBoneInfluence ==> v.boneIds[k] == NoBone
  {
  }

  /** The value-initialised vertex `std::vector::resize` creates. */
  const BlankVertex := Vertex(Zero, Zero, Vec2(0.0, 0.0), Zero, Zero, [0, 0, 0, 0], [0.0, 0.0, 0.0, 0.0])

  function BaseVertices(m: AiMesh): (vs: seq<Vertex>)
    requires VerticesWf(m)
    ensures |vs| == |m.vertices|
  {
    seq(|m.vertices|, i requires 0 <= i < |m.vertices| => BaseVertex(m, i))
  }

  /** The componentwise minimum of a non-empty sequence of points, taken
      left to right as `processVertices` does. */
  function MinOf(ps: seq<Vec3>): Vec3
    requires |ps| > 0
  {
    if |ps| == 1 then ps[0] else VMin(MinOf(ps[..|ps| - 1]), ps[|ps| - 1])
  }

  function MaxOf(ps: seq<Vec3>): Vec3
    requires |ps| > 0
  {
    if |ps| == 1 then ps[0] else VMax(MaxOf(ps[..|ps| - 1]), ps[|ps| - 1])
  }

  /** The first point is the bounds of itself. */
  lemma BoundsFirst(ps: seq<Vec3>)
    requires |ps| == 1
    ensures IsBounds(ps, ps[0], ps[0])
  {
  }

  /** Taking one more point into the running bounds keeps them the bounds. */
  lemma BoundsExtend(ps: seq<Vec3>, p: Vec3, mn: Vec3, mx: Vec3)
    requires IsBounds(ps, mn, mx)
    ensures IsBounds(ps + [p], VMin(mn, p), VMax(mx, p))
  {
    var qs := ps + [p];
    assert forall k :: 0 <= k < |ps| ==> qs[k] == ps[k];
    assert qs[|ps|] == p;
  }

  /** The running minimum and maximum are the bounds of the points: below
      and above each, and each component attained by some point. */
  lemma {:induction false} MinMaxAreBounds(ps: seq<Vec3>)
    requires |ps| > 0
    ensures IsBounds(ps, MinOf(ps), MaxOf(ps))
    decreases |ps|
  {
    if |ps| == 1 {
      BoundsFirst(ps);
    } else {
      var init := ps[..|ps| - 1];
      MinMaxAreBounds(init);
      BoundsExtend(init, ps[|ps| - 1], MinOf(init), MaxOf(init));
      assert init + [ps[|ps| - 1]] == ps;
    }
  }

  /** The first loop of `processVertices`: every vertex from its attributes,
      and the running minimum and maximum of the positions, which the first
      vertex initialises. Without vertices `min` and `max` keep the values
      they came with. */
  method FillVertices(m: AiMesh, mn0: Vec3, mx0: Vec3) returns (vs: seq<Vertex>, mn: Vec3, mx: Vec3)
    requires VerticesWf(m)
    ensures vs == BaseVertices(m)
    ensures |m.vertices| == 0 ==> mn == mn0 && mx == mx0
    ensures |m.vertices| > 0 ==> mn == MinOf(Positions(m)) && mx == MaxOf(Positions(m))
  {
    var n := |m.vertices|;
    ghost var ps := Positions(m);
    vs := seq(n, _ => BlankVertex);
    mn, mx := mn0, mx0;
    var i := 0;
    while i < n
      invariant 0 <= i <= n && |vs| == n
      invariant forall k :: 0 <= k < i ==> vs[k] == BaseVertex(m, k)
      invariant i == 0 ==> mn == mn0 && mx == mx0
      invariant i > 0 ==> mn == MinOf(ps[..i]) && mx == MaxOf(ps[..i])
    {
      var v := BaseVertex(m, i);
      vs := vs[i := v];
      var p := v.position;
      assert p == ps[i];
      if i == 0 {
        mn, mx := p, p;
      } else {
        mn := VMin(mn, p);
        mx := VMax(mx, p);
      }
      assert ps[..i + 1][..i] == ps[..i];
      i := i + 1;
    }
    assert ps[..n] == ps;
  }

  // ---------------------------------------------------------------------
  // Bone slots

  /** The first free slot, or the number of slots when all are taken. */
  function FirstFree(ids: seq<int>): (k: nat)
    ensures k <= |ids|
    ensures k < |ids| ==> ids[k] == NoBone
    ensures forall j :: 0 <= j < k ==> ids[j] != NoBone
  {
    if |ids| == 0 || ids[0] == NoBone then 0 else 1 + FirstFree(ids[1..])
  }

  /** The taken slots form a prefix: from the first free slot on, all are free. */
  predicate SlotsPrefix(ids: seq<int>)
  {
    forall j :: FirstFree(ids) <= j < |ids| ==> ids[j] == NoBone
  }

  lemma FirstFreeIs(ids: seq<int>, k: nat)
    requires k <= |ids| && (k < |ids| ==> ids[k] == NoBone)
    requires forall j :: 0 <= j < k ==> ids[j] != NoBone
    ensures FirstFree(ids) == k
  {
  }

  /** One weight of a bone: into the first free slot, dropped when all four
      slots are taken. */
  function Place(v: Vertex, id: int, w: real): Vertex
    requires HasSlots(v)
  {
    var k := FirstFree(v.boneIds);
    if k < MaxBoneInfluence then v.(boneIds := v.boneIds[k := id], weights := v.weights[k := w])
    else v
  }

  /** Placing a weight fills exactly the first free slot, if there is one,
      and keeps the taken slots a prefix; nothing else of the vertex changes. */
  lemma PlaceFacts(v: Vertex, id: int, w: real)
    requires HasSlots(v) && SlotsPrefix(v.boneIds) && id != NoBone
    ensures var r := Place(v, id, w);
            var k := FirstFree(v.boneIds);
            HasSlots(r) && SlotsPrefix(r.boneIds) &&
            r.position == v.position && r.normal == v.normal && r.texCoords == v.texCoords &&
            r.tangent == v.tangent && r.bitangent == v.bitangent &&
            (k < MaxBoneInfluence ==>
               FirstFree(r.boneIds) == k + 1 && r.boneIds[k] == id && r.weights[k] == w &&
               forall j :: 0 <= j < MaxBoneInfluence && j != k ==>
                 r.boneIds[j] == v.boneIds[j] && r.weights[j] == v.weights[j]) &&
            (k == MaxBoneInfluence ==> r == v)
  {
    var k := FirstFree(v.boneIds);
    if k < MaxBoneInfluence {
      var ids := v.boneIds[k := id];
      if k + 1 < MaxBoneInfluence {
        assert ids[k + 1] == v.boneIds[k + 1];
      }
      FirstFreeIs(ids, k + 1);
    }
  }

  /** The slot loop of `processVertices` for one weight. */
  method PlaceWeight(v: Vertex, id: int, w: real) returns (r: Vertex)
    requires HasSlots(v)
    ensures r == Place(v, id, w)
  {
    r := v;
    var k := 0;
    while k < MaxBoneInfluence
      invariant 0 <= k <= MaxBoneInfluence && r == v
      invariant forall j :: 0 <= j < k ==> v.boneIds[j] != NoBone
    {
      if r.boneIds[k] == NoBone {
        FirstFreeIs(v.boneIds, k);
        r := r.(boneIds := r.boneIds[k := id], weights := r.weights[k := w]);
        return;
      }
      k := k + 1;
    }
    FirstFreeIs(v.boneIds, k);
  }

  // ---------------------------------------------------------------------
  // Weight normalisation

  function PrefixSum(ws: seq<real>, n: nat): real
    requires n <= |ws|
  {
    if n == 0 then 0.0 else PrefixSum(ws, n - 1) + ws[n - 1]
  }

  /** The sum of the weights in the taken slots before the first free one. */
  function TotalWeight(v: Vertex): real
    requires HasSlots(v)
  {
    PrefixSum(v.weights, FirstFree(v.boneIds))
  }

  /** The normalisation loop: when the taken weights add up to a positive
      total, each of them is divided by it. */
  function Normalised(v: Vertex): Vertex
    requires HasSlots(v)
  {
    var f := FirstFree(v.boneIds);
    var t := TotalWeight(v);
    if t > 0.0 then
      v.(weights := seq(MaxBoneInfluence, k requires 0 <= k < MaxBoneInfluence =>
                          if k < f then v.weights[k] / t else v.weights[k]))
    else v
  }

  lemma DivAdd(a: real, b: real, t: real)
    requires t != 0.0
    ensures a / t + b / t == (a + b) / t
  {
    var q := 1.0 / t;
    assert a / t == a * q && b / t == b * q && (a + b) / t == (a + b) * q;
  }

  lemma {:induction false} PrefixSumDivided(ws: seq<real>, us: seq<real>, t: real, n: nat)
    requires t != 0.0 && n <= |ws| && n <= |us|
    requires forall k :: 0 <= k < n ==> us[k] == ws[k] / t
    ensures PrefixSum(us, n) == PrefixSum(ws, n) / t
  {
    if n > 0 {
      PrefixSumDivided(ws, us, t, n - 1);
      DivAdd(PrefixSum(ws, n - 1), ws[n - 1], t);
    }
  }

  /** After normalisation the taken weights add up to one, when their total
      was positive; otherwise the vertex is unchanged. The slots never change. */
  lemma NormalisedSumsToOne(v: Vertex)
    requires HasSlots(v)
    ensures var r := Normalised(v);
            HasSlots(r) && r.boneIds == v.boneIds &&
            (TotalWeight(v) > 0.0 ==> TotalWeight(r) == 1.0) &&
            (TotalWeight(v) <= 0.0 ==> r == v)
  {
    var t := TotalWeight(v);
    if t > 0.0 {
      var r := Normalised(v);
      PrefixSumDivided(v.weights, r.weights, t, FirstFree(v.boneIds));
      assert t / t == 1.0;
    }
  }

  /** The two loops of the normalisation of one vertex: sum the taken
      weights up to the first free slot, then divide them by the sum. */
  method NormaliseWeights(v: Vertex) returns (r: Vertex)
    requires HasSlots(v)
    ensures r == Normalised(v)
  {
    var f := FirstFree(v.boneIds);
    var total := 0.0;
    var i := 0;
    while i < MaxBoneInfluence
      invariant 0 <= i <= f && total == PrefixSum(v.weights, i)
    {
      if v.boneIds[i] != NoBone {
        total := total + v.weights[i];
      } else {
        break;
      }
      i := i + 1;
    }
    assert total == TotalWeight(v);
    r := v;
    if total > 0.0 {
      var ws := v.weights;
      i := 0;
      while i < MaxBoneInfluence
        invariant 0 <= i <= f && |ws| == MaxBoneInfluence
        invariant forall k :: 0 <= k < MaxBoneInfluence ==>
                    ws[k] == (if k < i then v.weights[k] / total else v.weights[k])
      {
        if v.boneIds[i] != NoBone {
          ws := ws[i := ws[i] / total];
        } else {
          break;
        }
        i := i + 1;
      }
      r := v.(weights := ws);
    }
  }

  // ---------------------------------------------------------------------
  // Bone weights of a whole mesh

  predicate AllSlots(vs: seq<Vertex>)
  {
    forall i :: 0 <= i < |vs| ==> HasSlots(vs[i])
  }

  predicate WeightsIn(ws: seq<AiWeight>, n: nat)
  {
    forall j :: 0 <= j < |ws| ==> ws[j].vertexId < n
  }

  /** The weights of one bone, placed one after the other. */
  function ApplyWeights(vs: seq<Vertex>, ws: seq<AiWeight>, id: int): (r: seq<Vertex>)
    requires AllSlots(vs) && WeightsIn(ws, |vs|)
    ensures |r| == |vs| && AllSlots(r)
    decreases |ws|
  {
    if |ws| == 0 then vs
    else
      var p := ApplyWeights(vs, ws[..|ws| - 1], id);
      var w := ws[|ws| - 1];
      p[w.vertexId := Place(p[w.vertexId], id, w.weight)]
  }

  predicate BonesIn(bones: seq<AiBone>, n: nat)
  {
    forall b :: 0 <= b < |bones| ==> WeightsIn(bones[b].weights, n)
  }

  /** The weights of every bone, bone by bone, each under its registry id. */
  function ApplyBones(vs: seq<Vertex>, bones: seq<AiBone>, ids: seq<int>): (r: seq<Vertex>)
    requires AllSlots(vs) && BonesIn(bones, |vs|) && |ids| == |bones|
    ensures |r| == |vs| && AllSlots(r)
    decreases |bones|
  {
    if |bones| == 0 then vs
    else
      var p := ApplyBones(vs, bones[..|bones| - 1], ids[..|ids| - 1]);
      ApplyWeights(p, bones[|bones| - 1].weights, ids[|ids| - 1])
  }

  /** The vertices `processVertices` returns, given the registry id of each
      bone of the mesh. */
  function MeshVertices(m: AiMesh, ids: seq<int>): (r: seq<Vertex>)
    requires VerticesWf(m) && |ids| == |m.bones|
    ensures |r| == |m.vertices|
  {
    var placed := ApplyBones(BaseVertices(m), m.bones, ids);
    seq(|placed|, i requires 0 <= i < |placed| => Normalised(placed[i]))
  }

  /** The bones before a point of the bone loop name vertices of the mesh. */
  lemma BonesInPrefix(base: seq<Vertex>, bones: seq<AiBone>, n: nat)
    requires BonesIn(bones, |base|) && n <= |bones|
    ensures BonesIn(bones[..n], |base|)
  {
  }

  /** One more bone of the loop in `processVertices`: its weights placed
      over those of the bones before it. */
  lemma ApplyBonesStep(base: seq<Vertex>, bones: seq<AiBone>, ids: seq<int>, id: int)
    requires AllSlots(base) && |ids| < |bones|
    requires BonesIn(bones[..|ids|], |base|) && BonesIn(bones[..|ids| + 1], |base|)
    ensures ApplyBones(base, bones[..|ids| + 1], ids + [id]) ==
            ApplyWeights(ApplyBones(base, bones[..|ids|], ids), bones[|ids|].weights, id)
  {
    assert bones[..|ids| + 1][..|ids|] == bones[..|ids|];
    assert (ids + [id])[..|ids|] == ids;
  }

  /** The mesh's bones name vertices of the mesh, and the vertices start
      with every slot free. */
  lemma BaseVerticesSlots(m: AiMesh)
    requires VerticesWf(m)
    ensures AllSlots(BaseVertices(m)) && BonesIn(m.bones, |BaseVertices(m)|)
  {
    forall i | 0 <= i < |m.vertices| ensures HasSlots(BaseVertices(m)[i]) {
      BaseVertexDefaults(m, i);
    }
  }

  /** The placed vertices, each normalised, are the mesh's vertices. */
  lemma MeshVerticesOf(m: AiMesh, ids: seq<int>, placed: seq<Vertex>, r: seq<Vertex>)
    requires VerticesWf(m) && |ids| == |m.bones|
    requires AllSlots(BaseVertices(m)) && BonesIn(m.bones, |m.vertices|)
    requires placed == ApplyBones(BaseVertices(m), m.bones, ids)
    requires |r| == |placed| && forall k :: 0 <= k < |placed| ==> r[k] == Normalised(placed[k])
    ensures r == MeshVertices(m, ids)
  {
  }

  /** Vertices whose taken slots form a prefix and whose other attributes
      are those of `base`. */
  ghost predicate SlotsKept(vs: seq<Vertex>, base: seq<Vertex>)
  {
    |vs| == |base| && AllSlots(vs) &&
    forall i :: 0 <= i < |vs| ==>
      SlotsPrefix(vs[i].boneIds) &&
      vs[i].position == base[i].position && vs[i].normal == base[i].normal &&
      vs[i].texCoords == base[i].texCoords && vs[i].tangent == base[i].tangent &&
      vs[i].bitangent == base[i].bitangent
  }

  lemma {:induction false} ApplyWeightsKeeps(vs: seq<Vertex>, base: seq<Vertex>, ws: seq<AiWeight>, id: int)
    requires AllSlots(vs) && WeightsIn(ws, |vs|) && id != NoBone && SlotsKept(vs, base)
    ensures SlotsKept(ApplyWeights(vs, ws, id), base)
    decreases |ws|
  {
    if |ws| > 0 {
      var p := ApplyWeights(vs, ws[..|ws| - 1], id);
      assert WeightsIn(ws[..|ws| - 1], |vs|);
      ApplyWeightsKeeps(vs, base, ws[..|ws| - 1], id);
      var w := ws[|ws| - 1];
      PlaceFacts(p[w.vertexId], id, w.weight);
    }
  }

  /** Placing the weights of all bones keeps each vertex's taken slots a
      prefix and changes nothing but the slots, as long as no registry id
      is -1. */
  lemma {:induction false} ApplyBonesKeeps(vs: seq<Vertex>, bones: seq<AiBone>, ids: seq<int>)
    requires AllSlots(vs) && BonesIn(bones, |vs|) && |ids| == |bones|
    requires forall b :: 0 <= b < |ids| ==> ids[b] != NoBone
    requires forall i :: 0 <= i < |vs| ==> SlotsPrefix(vs[i].boneIds)
    ensures SlotsKept(ApplyBones(vs, bones, ids), vs)
    decreases |bones|
  {
    if |bones| == 0 {
    } else {
      var bs := bones[..|bones| - 1];
      assert BonesIn(bs, |vs|);
      ApplyBonesKeeps(vs, bs, ids[..|ids| - 1]);
      var p := ApplyBones(vs, bs, ids[..|ids| - 1]);
      ApplyWeightsKeeps(p, vs, bones[|bones| - 1].weights, ids[|ids| - 1]);
    }
  }

  /** Every returned vertex keeps its attributes from the mesh, has its taken
      bone slots as a prefix holding registry ids, and has weights that add
      up to one whenever they added up to something positive. */
  lemma MeshVerticesFacts(m: AiMesh, ids: seq<int>)
    requires VerticesWf(m) && |ids| == |m.bones|
    requires forall b :: 0 <= b < |ids| ==> ids[b] != NoBone
    ensures var base := BaseVertices(m);
            var placed := ApplyBones(base, m.bones, ids);
            var r := MeshVertices(m, ids);
            SlotsKept(r, base) &&
            forall i :: 0 <= i < |r| ==>
              (TotalWeight(placed[i]) > 0.0 ==> TotalWeight(r[i]) == 1.0) &&
              (TotalWeight(placed[i]) <= 0.0 ==> r[i] == placed[i])
  {
    var base := BaseVertices(m);
    forall i | 0 <= i < |base| ensures SlotsPrefix(base[i].boneIds) {
      BaseVertexDefaults(m, i);
    }
    assert BonesIn(m.bones, |base|);
    ApplyBonesKeeps(base, m.bones, ids);
    var placed := ApplyBones(base, m.bones, ids);
    forall i | 0 <= i < |placed| ensures Normalised(placed[i]).boneIds == placed[i].boneIds &&
        (TotalWeight(placed[i]) > 0.0 ==> TotalWeight(Normalised(placed[i])) == 1.0) &&
        (TotalWeight(placed[i]) <= 0.0 ==> Normalised(placed[i]) == placed[i])
    {
      NormalisedSumsToOne(placed[i]);
    }
  }

  // ---------------------------------------------------------------------
  // Indices

  /** The faces' index lists one after the other. */
  function Flatten(faces: seq<seq<nat>>): seq<nat>
    decreases |faces|
  {
    if |faces| == 0 then [] else Flatten(faces[..|faces| - 1]) + faces[|faces| - 1]
  }

  lemma {:induction false} FlattenAppend(a: seq<seq<nat>>, b: seq<seq<nat>>)
    ensures Flatten(a + b) == Flatten(a) + Flatten(b)
    decreases |b|
  {
    if |b| == 0 {
      assert a + b == a;
    } else {
      var c := b[..|b| - 1];
      assert (a + b)[..|a + b| - 1] == a + c;
      FlattenAppend(a, c);
    }
  }

  /** Triangulated faces give three indices per face. */
  lemma {:induction false} FlattenTriangles(faces: seq<seq<nat>>)
    requires forall f :: 0 <= f < |faces| ==> |faces[f]| == 3
    ensures |Flatten(faces)| == 3 * |faces|
    decreases |faces|
  {
    if |faces| > 0 {
      FlattenTriangles(faces[..|faces| - 1]);
    }
  }

  /** `processIndices` */
  method ProcessIndices(faces: seq<seq<nat>>) returns (indices: seq<nat>)
    ensures indices == Flatten(faces)
  {
    indices := [];
    var i := 0;
    while i < |faces|
      invariant 0 <= i <= |faces| && indices == Flatten(faces[..i])
    {
      var j := 0;
      ghost var before := indices;
      while j < |faces[i]|
        invariant 0 <= j <= |faces[i]| && indices == before + faces[i][..j]
      {
        indices := indices + [faces[i][j]];
        assert faces[i][..j + 1] == faces[i][..j] + [faces[i][j]];
        j := j + 1;
      }
      assert faces[i][..j] == faces[i];
      assert faces[..i + 1][..i] == faces[..i];
      i := i + 1;
    }
    assert faces[..i] == faces;
  }

  // ---------------------------------------------------------------------
  // Textures

  /** No two textures share a path. */
  ghost predicate DistinctPaths(ts: seq<Texture>)
  {
    forall a, b :: 0 <= a < b < |ts| ==> ts[a].path != ts[b].path
  }

  /** The first loaded texture with this path. */
  function FindTexture(loaded: seq<Texture>, path: string): (r: Option<nat>)
    ensures r.Some? ==> r.value < |loaded| && loaded[r.value].path == path &&
                        forall k :: 0 <= k < r.value ==> loaded[k].path != path
    ensures r.None? ==> forall k :: 0 <= k < |loaded| ==> loaded[k].path != path
    decreases |loaded|
  {
    if |loaded| == 0 then None
    else if loaded[0].path == path then Some(0)
    else match FindTexture(loaded[1..], path)
      case None => None
      case Some(k) => Some(k + 1)
  }

  /** One path of `loadMaterialTextures`: the loaded texture with that path
      if there is one, otherwise a new texture of this kind, which is also
      recorded as loaded. */
  function LoadOne(loaded: seq<Texture>, path: string, kind: string, textureId: string -> nat): (Texture, seq<Texture>)
  {
    match FindTexture(loaded, path)
    case Some(k) => (loaded[k], loaded)
    case None =>
      var t := Texture(textureId(path), kind, path);
      (t, loaded + [t])
  }

  /** All paths of one texture type, in order: the textures for the mesh and
      the loaded list afterwards. */
  function LoadAll(loaded: seq<Texture>, paths: seq<string>, kind: string, textureId: string -> nat): (seq<Texture>, seq<Texture>)
    decreases |paths|
  {
    if |paths| == 0 then ([], loaded)
    else
      var (out, l) := LoadAll(loaded, paths[..|paths| - 1], kind, textureId);
      var (t, l2) := LoadOne(l, paths[|paths| - 1], kind, textureId);
      (out + [t], l2)
  }

  /** Loading keeps the loaded paths pairwise distinct and only ever appends
      to the loaded list; the mesh gets one texture per path, with that path,
      each of them one of the loaded ones. */
  lemma {:induction false} LoadAllFacts(loaded: seq<Texture>, paths: seq<string>, kind: string, textureId: string -> nat)
    requires DistinctPaths(loaded)
    ensures var (out, l) := LoadAll(loaded, paths, kind, textureId);
            DistinctPaths(l) && |loaded| <= |l| && l[..|loaded|] == loaded &&
            |out| == |paths| &&
            (forall i :: 0 <= i < |out| ==> out[i].path == paths[i]) &&
            (forall i :: 0 <= i < |out| ==> out[i] in l)
    decreases |paths|
  {
    if |paths| > 0 {
      var init := paths[..|paths| - 1];
      LoadAllFacts(loaded, init, kind, textureId);
      var (out, l) := LoadAll(loaded, init, kind, textureId);
      var path := paths[|paths| - 1];
      var (t, l2) := LoadOne(l, path, kind, textureId);
      match FindTexture(l, path)
      case Some(k) =>
      case None =>
        assert l2 == l + [t];
        assert l2[..|l|] == l;
        assert l2[..|loaded|] == l[..|loaded|];
    }
  }

  /** `b` starts with `a`: what `push_back` on the loaded list keeps. */
  ghost predicate Extends(a: seq<Texture>, b: seq<Texture>)
  {
    |a| <= |b| && b[..|a|] == a
  }

  lemma ExtendsTrans(a: seq<Texture>, b: seq<Texture>, c: seq<Texture>)
    requires Extends(a, b) && Extends(b, c)
    ensures Extends(a, c) && forall t :: t in b ==> t in c
  {
    assert c[..|a|] == c[..|b|][..|a|];
    forall t | t in b ensures t in c {
      var k :| 0 <= k < |b| && b[k] == t;
      assert c[k] == c[..|b|][k];
    }
  }

  /** The four `loadMaterialTextures` calls of `processTextures`: diffuse,
      specular, height and ambient paths, under the kinds the engine's
      shaders use; the textures for the mesh and the loaded list after. */
  function MaterialTextures(loaded: seq<Texture>, mat: AiMaterial, textureId: string -> nat): (seq<Texture>, seq<Texture>)
  {
    var (d, l1) := LoadAll(loaded, mat.diffuse, "texture_diffuse", textureId);
    var (s, l2) := LoadAll(l1, mat.specular, "texture_specular", textureId);
    var (h, l3) := LoadAll(l2, mat.height, "texture_normal", textureId);
    var (a, l4) := LoadAll(l3, mat.ambient, "texture_height", textureId);
    (d + s + h + a, l4)
  }

  /** A mesh gets one texture per material path, in order and with that
      path, each of them a loaded one; the loaded list only grows and keeps
      its paths distinct. */
  lemma MaterialTexturesFacts(loaded: seq<Texture>, mat: AiMaterial, textureId: string -> nat)
    requires DistinctPaths(loaded)
    ensures var (ts, l) := MaterialTextures(loaded, mat, textureId);
            DistinctPaths(l) && Extends(loaded, l) &&
            |ts| == |MaterialPaths(mat)| &&
            (forall k :: 0 <= k < |ts| ==> ts[k].path == MaterialPaths(mat)[k]) &&
            (forall k :: 0 <= k < |ts| ==> ts[k] in l)
  {
    var (d, l1) := LoadAll(loaded, mat.diffuse, "texture_diffuse", textureId);
    LoadAllFacts(loaded, mat.diffuse, "texture_diffuse", textureId);
    var (s, l2) := LoadAll(l1, mat.specular, "texture_specular", textureId);
    LoadAllFacts(l1, mat.specular, "texture_specular", textureId);
    var (h, l3) := LoadAll(l2, mat.height, "texture_normal", textureId);
    LoadAllFacts(l2, mat.height, "texture_normal", textureId);
    var (a, l4) := LoadAll(l3, mat.ambient, "texture_height", textureId);
    LoadAllFacts(l3, mat.ambient, "texture_height", textureId);
    ExtendsTrans(l1, l2, l3);
    ExtendsTrans(l1, l3, l4);
    ExtendsTrans(l2, l3, l4);
    ExtendsTrans(loaded, l1, l4);
    var ts := d + s + h + a;
    var ps := MaterialPaths(mat);
    forall k | 0 <= k < |ts| ensures ts[k].path == ps[k] && ts[k] in l4 {
      if k < |d| {
        assert ts[k] == d[k] && ps[k] == mat.diffuse[k];
      } else if k < |d| + |s| {
        assert ts[k] == s[k - |d|] && ps[k] == mat.specular[k - |d|];
      } else if k < |d| + |s| + |h| {
        assert ts[k] == h[k - |d| - |s|] && ps[k] == mat.height[k - |d| - |s|];
      } else {
        assert ts[k] == a[k - |d| - |s| - |h|] && ps[k] == mat.ambient[k - |d| - |s| - |h|];
      }
    }
  }

  /** The path loop of `loadMaterialTextures`, over the loaded list. */
  method LoadPaths(loaded: seq<Texture>, textures: seq<Texture>, paths: seq<string>, kind: string, textureId: string -> nat)
    returns (out: seq<Texture>, l: seq<Texture>)
    ensures out == textures + LoadAll(loaded, paths, kind, textureId).0
    ensures l == LoadAll(loaded, paths, kind, textureId).1
  {
    out, l := textures, loaded;
    var i := 0;
    while i < |paths|
      invariant 0 <= i <= |paths|
      invariant out == textures + LoadAll(loaded, paths[..i], kind, textureId).0
      invariant l == LoadAll(loaded, paths[..i], kind, textureId).1
    {
      var path := paths[i];
      assert paths[..i + 1][..i] == paths[..i];
      var found := SearchTexture(l, path);
      if found.Some? {
        out := out + [l[found.value]];
      } else {
        var t := Texture(textureId(path), kind, path);
        out := out + [t];
        l := l + [t];
      }
      i := i + 1;
    }
    assert paths[..i] == paths;
  }

  /** The search loop of `loadMaterialTextures`. */
  method SearchTexture(loaded: seq<Texture>, path: string) returns (r: Option<nat>)
    ensures r == FindTexture(loaded, path)
  {
    var j := 0;
    while j < |loaded|
      invariant 0 <= j <= |loaded|
      invariant forall k :: 0 <= k < j ==> loaded[k].path != path
    {
      if loaded[j].path == path {
        return Some(j);
      }
      j := j + 1;
    }
    return None;
  }

  // ---------------------------------------------------------------------
  // The bounds of the whole model

  /** The model's `min_`/`max_`; None while they are still NaN. */
  datatype Bounds = Bounds(min: Vec3, max: Vec3)

  /** The bounds lie below and above the bounds of every mesh, and are
      defined exactly when there is a mesh. */
  ghost predicate Covers(b: Option<Bounds>, meshes: seq<Mesh>)
  {
    (b.None? <==> |meshes| == 0) &&
    (b.Some? ==> forall k :: 0 <= k < |meshes| ==>
       Below(b.value.min, meshes[k].min) && Below(meshes[k].max, b.value.max))
  }

  /** The merge in `processNode` as written: the first mesh ever initialises
      the bounds, and after that the node-local loop counter `i` picks the
      mesh that is merged, out of the model's whole mesh list. */
  function MergeAsWritten(b: Option<Bounds>, meshes: seq<Mesh>, i: nat): Option<Bounds>
    requires i < |meshes|
  {
    if b.None? then Some(Bounds(meshes[0].min, meshes[0].max))
    else Some(Bounds(VMin(b.value.min, meshes[i].min), VMax(b.value.max, meshes[i].max)))
  }

  /** A root with one mesh and a child with one mesh: when the child's mesh
      is pushed, the child's counter is 0, so the root's mesh is merged a
      second time and the child's mesh is left outside the bounds. */
  lemma MergeAsWrittenMissesMesh()
    ensures var a := Mesh([], [], [], Vec3(0.0, 0.0, 0.0), Vec3(1.0, 1.0, 1.0), "a");
            var c := Mesh([], [], [], Vec3(2.0, 2.0, 2.0), Vec3(3.0, 3.0, 3.0), "c");
            var first := MergeAsWritten(None, [a], 0);
            Covers(first, [a]) && !Covers(MergeAsWritten(first, [a, c], 0), [a, c])
  {
    var a := Mesh([], [], [], Vec3(0.0, 0.0, 0.0), Vec3(1.0, 1.0, 1.0), "a");
    var c := Mesh([], [], [], Vec3(2.0, 2.0, 2.0), Vec3(3.0, 3.0, 3.0), "c");
    var second := MergeAsWritten(MergeAsWritten(None, [a], 0), [a, c], 0);
    assert second.value.max == Vec3(1.0, 1.0, 1.0);
    assert !Below([a, c][1].max, second.value.max);
  }

  /** The merge as intended: the mesh just pushed is the one merged. */
  function Merged(b: Option<Bounds>, meshes: seq<Mesh>): Option<Bounds>
    requires |meshes| > 0
  {
    var last := meshes[|meshes| - 1];
    if b.None? then Some(Bounds(meshes[0].min, meshes[0].max))
    else Some(Bounds(VMin(b.value.min, last.min), VMax(b.value.max, last.max)))
  }

  /** Merging each mesh as it is pushed keeps the bounds around all meshes. */
  lemma MergedCovers(b: Option<Bounds>, meshes: seq<Mesh>, mesh: Mesh)
    requires Covers(b, meshes)
    ensures Covers(Merged(b, meshes + [mesh]), meshes + [mesh])
  {
    var ms := meshes + [mesh];
    assert forall k :: 0 <= k < |meshes| ==> ms[k] == meshes[k];
    assert ms[|meshes|] == mesh;
  }

  // ---------------------------------------------------------------------
  // The registry `bonesLoaded_`

  /** `order` lists the registered names by id: entry i has id i, every
      name in the map is listed, and every entry is filed under its name. */
  ghost predicate RegistryOk(bones: map<string, Hierarchy>, order: seq<string>)
  {
    |order| == |bones| &&
    (forall i :: 0 <= i < |order| ==> order[i] in bones && bones[order[i]].id == i && bones[order[i]].name == order[i]) &&
    (forall n :: n in bones ==> n in order)
  }

  /** The ids of the registry are exactly 0 .. n-1, one per name. */
  lemma RegistryDense(bones: map<string, Hierarchy>, order: seq<string>)
    requires RegistryOk(bones, order)
    ensures forall n :: n in bones ==> 0 <= bones[n].id < |bones| && bones[n].name == n
    ensures forall a, b :: a in bones && b in bones && bones[a].id == bones[b].id ==> a == b
    ensures (set n | n in bones :: bones[n].id) == IdsBelow(|bones|)
  {
    forall n | n in bones ensures 0 <= bones[n].id < |bones| && bones[n].name == n {
      var i :| 0 <= i < |order| && order[i] == n;
    }
    var ids := set n | n in bones :: bones[n].id;
    forall i | 0 <= i < |bones| ensures i in ids {
      assert order[i] in bones;
    }
  }

  /** The ids 0 .. n-1. */
  function IdsBelow(n: nat): (r: set<int>)
    ensures forall i :: i in r <==> 0 <= i < n
  {
    if n == 0 then {} else IdsBelow(n - 1) + {n - 1}
  }

  /** A name is registered when it is first seen, with the size of the
      registry as its id; a name seen before keeps its entry. */
  function Registered(bones: map<string, Hierarchy>, name: string, offset: Mat4): map<string, Hierarchy>
  {
    if name in bones then bones else bones[name := Hierarchy(|bones|, offset, name, [])]
  }

  lemma RegisteredOk(bones: map<string, Hierarchy>, order: seq<string>, name: string, offset: Mat4)
    requires RegistryOk(bones, order)
    ensures name in Registered(bones, name, offset)
    ensures RegistryOk(Registered(bones, name, offset), if name in bones then order else order + [name])
    ensures Grows(bones, Registered(bones, name, offset))
    ensures OnlyRegisters(bones, Registered(bones, name, offset))
  {
    if name !in bones {
      var r := Registered(bones, name, offset);
      var o := order + [name];
      assert |r| == |bones| + 1;
      forall i | 0 <= i < |o| ensures o[i] in r && r[o[i]].id == i && r[o[i]].name == o[i] {
        if i < |order| {
          assert o[i] == order[i];
        }
      }
      forall n | n in r ensures n in o {
        if n != name {
          assert n in order;
          var k :| 0 <= k < |order| && order[k] == n;
          assert o[k] == n;
        } else {
          assert o[|order|] == name;
        }
      }
    }
  }

  /** Every name of `a` stays registered in `b` with its id, offset and name. */
  ghost predicate Grows(a: map<string, Hierarchy>, b: map<string, Hierarchy>)
  {
    forall n :: n in a ==> n in b && b[n].id == a[n].id && b[n].offset == a[n].offset && b[n].name == a[n].name
  }

  lemma GrowsTrans(a: map<string, Hierarchy>, b: map<string, Hierarchy>, c: map<string, Hierarchy>)
    requires Grows(a, b) && Grows(b, c)
    ensures Grows(a, c)
  {
  }

  /** Appending a child to a registered entry keeps the registry and every
      entry's id, offset and name. */
  lemma ChildAddedOk(bones: map<string, Hierarchy>, order: seq<string>, name: string, child: string)
    requires RegistryOk(bones, order) && name in bones
    ensures var b := bones[name := bones[name].(children := bones[name].children + [child])];
            RegistryOk(b, order) && Grows(bones, b) && name in b
  {
  }

  /** The registry id of each bone of a mesh. */
  function BoneIds(bones: map<string, Hierarchy>, bs: seq<AiBone>): (ids: seq<int>)
    requires forall b :: 0 <= b < |bs| ==> bs[b].name in bones
    ensures |ids| == |bs|
  {
    seq(|bs|, b requires 0 <= b < |bs| => bones[bs[b].name].id)
  }

  /** The texture paths `processTextures` asks for, in its order. */
  function MaterialPaths(mat: AiMaterial): seq<string>
  {
    mat.diffuse + mat.specular + mat.height + mat.ambient
  }

  /** The slot loop of `processVertices` for one bone: each of its weights
      placed into the vertex it names. */
  method PlaceBoneWeights(vs: seq<Vertex>, ws: seq<AiWeight>, id: int) returns (r: seq<Vertex>)
    requires AllSlots(vs) && WeightsIn(ws, |vs|)
    ensures r == ApplyWeights(vs, ws, id)
  {
    r := vs;
    var j := 0;
    while j < |ws|
      invariant 0 <= j <= |ws|
      invariant r == ApplyWeights(vs, ws[..j], id)
    {
      var w := ws[j];
      var v := PlaceWeight(r[w.vertexId], id, w.weight);
      r := r[w.vertexId := v];
      assert ws[..j + 1][..j] == ws[..j];
      j := j + 1;
    }
    assert ws[..j] == ws;
  }

  /** The normalisation loop of `processVertices`: every vertex's weights
      normalised. */
  method NormaliseAll(vs: seq<Vertex>) returns (r: seq<Vertex>)
    requires AllSlots(vs)
    ensures |r| == |vs| && forall k :: 0 <= k < |vs| ==> r[k] == Normalised(vs[k])
  {
    r := vs;
    var i := 0;
    while i < |r|
      invariant 0 <= i <= |r| == |vs|
      invariant forall k :: 0 <= k < |vs| ==> r[k] == (if k < i then Normalised(vs[k]) else vs[k])
    {
      var v := NormaliseWeights(r[i]);
      r := r[i := v];
      i := i + 1;
    }
  }

  /** The ids found so far stay valid once the registry grows. */
  lemma IdsKept(bs: seq<AiBone>, ids: seq<int>, a: map<string, Hierarchy>, b: map<string, Hierarchy>, id: int)
    requires |ids| < |bs| && Grows(a, b) && bs[|ids|].name in b && b[bs[|ids|].name].id == id
    requires forall c :: 0 <= c < |ids| ==> bs[c].name in a && a[bs[c].name].id == ids[c]
    ensures forall c :: 0 <= c < |ids| + 1 ==> bs[c].name in b && b[bs[c].name].id == (ids + [id])[c]
  {
  }

  /** The bone loop of `processVertices`: each bone registered (as
      `register` does) and its weights placed under its registry id. */
  method PlaceBones(base: seq<Vertex>, bs: seq<AiBone>, registry: map<string, Hierarchy>, ghost names: seq<string>)
    returns (vs: seq<Vertex>, reg: map<string, Hierarchy>, ghost regNames: seq<string>)
    requires AllSlots(base) && BonesIn(bs, |base|) && RegistryOk(registry, names)
    ensures RegistryOk(reg, regNames) && OnlyRegisters(registry, reg)
    ensures forall c :: 0 <= c < |bs| ==> bs[c].name in reg
    ensures vs == ApplyBones(base, bs, BoneIds(reg, bs))
  {
    vs, reg, regNames := base, registry, names;
    ghost var ids: seq<int> := [];
    var b := 0;
    while b < |bs|
      invariant 0 <= b <= |bs| && |ids| == b
      invariant RegistryOk(reg, regNames) && OnlyRegisters(registry, reg)
      invariant forall c :: 0 <= c < b ==> bs[c].name in reg && reg[bs[c].name].id == ids[c]
      invariant BonesIn(bs[..b], |base|) && vs == ApplyBones(base, bs[..b], ids)
    {
      var bone := bs[b];
      var offset := ConvertMatrixToGlm(bone.offset);
      ghost var before := reg;
      RegisteredOk(reg, regNames, bone.name, offset);
      if bone.name !in reg {
        reg := reg[bone.name := Hierarchy(|reg|, offset, bone.name, [])];
        regNames := regNames + [bone.name];
      }
      OnlyRegistersTrans(registry, before, reg);
      var id := reg[bone.name].id;
      IdsKept(bs, ids, before, reg, id);
      BonesInPrefix(base, bs, b + 1);
      ApplyBonesStep(base, bs, ids, id);
      vs := PlaceBoneWeights(vs, bone.weights, id);
      ids := ids + [id];
      b := b + 1;
    }
    assert bs[..b] == bs;
    assert ids == BoneIds(reg, bs);
  }

  // ---------------------------------------------------------------------
  // The child links of the registry

  /** `height` witnesses that following children always ends: every name
      has a height, and every child is registered and lies strictly lower
      than its parent. Children are kept by name, so a name reachable from
      itself closes a cycle, around which `calculateTransform` recurses
      without end; ids play no part. */
  predicate Layered(bones: map<string, Hierarchy>, height: map<string, nat>)
  {
    (forall n :: n in bones ==> n in height) &&
    (forall n, c :: n in bones && c in bones[n].children ==>
       c in bones && c in height && n in height && height[c] < height[n])
  }

  /** A node that is its own child has no height. */
  lemma SelfChildUnlayered(bones: map<string, Hierarchy>, height: map<string, nat>, n: string)
    requires n in bones && n in bones[n].children
    ensures !Layered(bones, height)
  {
  }

  /** `b` only registers names: it grows from `a`, every entry of `a` keeps
      its child list and every new entry has none. */
  ghost predicate OnlyRegisters(a: map<string, Hierarchy>, b: map<string, Hierarchy>)
  {
    Grows(a, b) && forall n :: n in b ==> b[n].children == if n in a then a[n].children else []
  }

  lemma OnlyRegistersTrans(a: map<string, Hierarchy>, b: map<string, Hierarchy>, c: map<string, Hierarchy>)
    requires OnlyRegisters(a, b) && OnlyRegisters(b, c)
    ensures OnlyRegisters(a, c)
  {
  }

  /** The names of the nodes of a tree. */
  function Names(node: AiNode): set<string>
    decreases node
  {
    {node.name} + set i, n | 0 <= i < |node.children| && n in Names(node.children[i]) :: n
  }

  /** The parent and child name of every parent–child pair of a tree. */
  function TreeEdges(node: AiNode): set<(string, string)>
    decreases node
  {
    (set i | 0 <= i < |node.children| :: (node.name, node.children[i].name)) +
    (set i, e | 0 <= i < |node.children| && e in TreeEdges(node.children[i]) :: e)
  }

  /** No two nodes of the tree share a name. */
  predicate UniqueNames(node: AiNode)
    decreases node
  {
    (forall i :: 0 <= i < |node.children| ==> node.name !in Names(node.children[i]) && UniqueNames(node.children[i])) &&
    (forall i, j :: 0 <= i < j < |node.children| ==> Names(node.children[i]) !! Names(node.children[j]))
  }

  /** Every child link of `b` is one of `a`, or a parent–child pair of
      `node` whose child is registered. */
  ghost predicate LinksFrom(a: map<string, Hierarchy>, b: map<string, Hierarchy>, node: AiNode)
  {
    forall n, c :: n in b && c in b[n].children ==>
      (n in a && c in a[n].children) || (c in b && (n, c) in TreeEdges(node))
  }

  /** Every child link of the registry is a parent–child pair of `node`
      whose child is registered. */
  ghost predicate Linked(bones: map<string, Hierarchy>, node: AiNode)
  {
    forall n, c :: n in bones && c in bones[n].children ==> c in bones && (n, c) in TreeEdges(node)
  }

  /** Links added to an empty registry are all links of the tree. */
  lemma LinkedFromEmpty(bones: map<string, Hierarchy>, node: AiNode)
    requires LinksFrom(map[], bones, node)
    ensures Linked(bones, node)
  {
  }

  lemma LinksTrans(a: map<string, Hierarchy>, b: map<string, Hierarchy>, c: map<string, Hierarchy>, node: AiNode)
    requires LinksFrom(a, b, node) && LinksFrom(b, c, node) && Grows(b, c)
    ensures LinksFrom(a, c, node)
  {
  }

  /** Registering names adds no child link. */
  lemma RegistersLinks(a: map<string, Hierarchy>, b: map<string, Hierarchy>, node: AiNode)
    requires OnlyRegisters(a, b)
    ensures LinksFrom(a, b, node)
  {
  }

  /** The links a child's processing adds are links of the parent's tree. */
  lemma LinksOfChild(a: map<string, Hierarchy>, b: map<string, Hierarchy>, node: AiNode, i: nat)
    requires i < |node.children| && LinksFrom(a, b, node.children[i])
    ensures LinksFrom(a, b, node)
  {
    TreeEdgesOfChild(node, i);
  }

  /** Appending the `i`-th child's name to the node's entry adds a link of
      the tree. */
  lemma ChildLinked(bones: map<string, Hierarchy>, node: AiNode, i: nat)
    requires i < |node.children| && node.name in bones && node.children[i].name in bones
    ensures var e := bones[node.name];
            LinksFrom(bones, bones[node.name := e.(children := e.children + [node.children[i].name])], node)
  {
    TreeEdgesOfChild(node, i);
  }

  /** The pairs of a child's subtree are pairs of the tree. */
  lemma {:induction false} TreeEdgesOfChild(node: AiNode, i: nat)
    requires i < |node.children|
    ensures TreeEdges(node.children[i]) <= TreeEdges(node)
    ensures (node.name, node.children[i].name) in TreeEdges(node)
  {
  }

  /** Each name of the tree mapped to the number of names at and below its
      node. */
  function Levels(node: AiNode): map<string, nat>
    decreases node, |node.children| + 1
  {
    LevelsFrom(node, 0)[node.name := |Names(node)|]
  }

  /** The levels of the children from the `i`-th on. */
  function LevelsFrom(node: AiNode, i: nat): map<string, nat>
    decreases node, |node.children| - i
  {
    if i >= |node.children| then map[] else Levels(node.children[i]) + LevelsFrom(node, i + 1)
  }

  lemma {:induction false} LevelsKeys(node: AiNode)
    ensures Levels(node).Keys == Names(node)
    decreases node, |node.children| + 1
  {
    var cs := node.children;
    LevelsFromKeys(node, 0);
    forall n
      ensures n in NamesFrom(cs, 0) <==> n in set i, m | 0 <= i < |cs| && m in Names(cs[i]) :: m
    {
      NamesFromHas(cs, 0, n);
    }
  }

  /** The names of the subtrees from the `i`-th on. */
  function NamesFrom(cs: seq<AiNode>, i: nat): set<string>
    decreases |cs| - i
  {
    if i >= |cs| then {} else Names(cs[i]) + NamesFrom(cs, i + 1)
  }

  lemma {:induction false} LevelsFromKeys(node: AiNode, i: nat)
    ensures LevelsFrom(node, i).Keys == NamesFrom(node.children, i)
    decreases node, |node.children| - i
  {
    if i < |node.children| {
      LevelsKeys(node.children[i]);
      LevelsFromKeys(node, i + 1);
    }
  }

  /** A name is among the subtrees from the `i`-th on exactly when some
      subtree from the `i`-th on has it. */
  lemma {:induction false} NamesFromHas(cs: seq<AiNode>, i: nat, n: string)
    requires i <= |cs|
    ensures n in NamesFrom(cs, i) <==> exists j :: i <= j < |cs| && n in Names(cs[j])
    decreases |cs| - i
  {
    if i < |cs| {
      NamesFromHas(cs, i + 1, n);
      NamesFromSplit(cs, i, n);
    }
  }

  /** A name is in one of the subtrees from the `i`-th on exactly when it
      is in the `i`-th or in one of those after it. */
  lemma {:induction false} NamesFromSplit(cs: seq<AiNode>, i: nat, n: string)
    requires i < |cs|
    ensures (exists j :: i <= j < |cs| && n in Names(cs[j])) <==>
            n in Names(cs[i]) || exists j :: i + 1 <= j < |cs| && n in Names(cs[j])
  {
    if n in Names(cs[i]) {
      assert i <= i < |cs| && n in Names(cs[i]);
    } else if j :| i + 1 <= j < |cs| && n in Names(cs[j]) {
      assert i <= j < |cs| && n in Names(cs[j]);
    } else {
      forall j | i <= j < |cs|
        ensures n !in Names(cs[j])
      {
        if j != i {
          assert !(i + 1 <= j < |cs| && n in Names(cs[j]));
        }
      }
    }
  }

  /** With unique names, a name of the `j`-th child has the level it has in
      that child's subtree. */
  lemma {:induction false} LevelsFromAt(node: AiNode, i: nat, j: nat, n: string)
    requires UniqueNames(node) && i <= j < |node.children| && n in Names(node.children[j])
    ensures n in Levels(node.children[j]) && n in LevelsFrom(node, i) &&
            LevelsFrom(node, i)[n] == Levels(node.children[j])[n]
    decreases j - i
  {
    var cs := node.children;
    LevelsKeys(cs[j]);
    if i == j {
      forall k | i + 1 <= k < |cs|
        ensures n !in Names(cs[k])
      {
        assert Names(cs[j]) !! Names(cs[k]);
      }
      LevelsFromKeys(node, i + 1);
      NamesFromHas(cs, i + 1, n);
      assert n !in LevelsFrom(node, i + 1);
    } else {
      LevelsKeys(cs[i]);
      assert Names(cs[i]) !! Names(cs[j]);
      LevelsFromAt(node, i + 1, j, n);
    }
  }

  /** A child's subtree has fewer names than the tree. */
  lemma {:induction false} ChildFewer(node: AiNode, j: nat)
    requires UniqueNames(node) && j < |node.children|
    ensures |Names(node.children[j])| < |Names(node)|
  {
    var a, b := Names(node.children[j]), Names(node);
    assert a <= b;
    assert node.name in b - a;
    assert b == a + (b - a) && a * (b - a) == {};
  }

  /** A pair of the tree is the node and one of its children, or a pair of
      that child's subtree. */
  lemma {:induction false} EdgeChild(node: AiNode, p: string, c: string) returns (j: nat)
    requires (p, c) in TreeEdges(node)
    ensures j < |node.children|
    ensures (p == node.name && c == node.children[j].name) || (p, c) in TreeEdges(node.children[j])
  {
    j :| 0 <= j < |node.children| && ((p == node.name && c == node.children[j].name) || (p, c) in TreeEdges(node.children[j]));
  }

  /** Both names of a pair of the tree are names of the tree. */
  lemma {:induction false} EdgeNames(node: AiNode, p: string, c: string)
    requires (p, c) in TreeEdges(node)
    ensures p in Names(node) && c in Names(node)
    decreases node
  {
    var j :| 0 <= j < |node.children| && ((p == node.name && c == node.children[j].name) || (p, c) in TreeEdges(node.children[j]));
    if (p, c) in TreeEdges(node.children[j]) {
      EdgeNames(node.children[j], p, c);
    } else {
      assert c in Names(node.children[j]);
    }
  }

  /** With unique names, every child lies strictly lower than its parent. */
  lemma {:induction false} LevelsDescend(node: AiNode, p: string, c: string)
    requires UniqueNames(node) && (p, c) in TreeEdges(node)
    ensures p in Levels(node) && c in Levels(node) && Levels(node)[c] < Levels(node)[p]
    decreases node
  {
    var cs := node.children;
    var j := EdgeChild(node, p, c);
    var under := LevelsFrom(node, 0);
    assert Levels(node) == under[node.name := |Names(node)|];
    if (p, c) in TreeEdges(cs[j]) {
      LevelsDescend(cs[j], p, c);
      EdgeNames(cs[j], p, c);
      LevelsFromAt(node, 0, j, p);
      LevelsFromAt(node, 0, j, c);
      assert p != node.name && c != node.name;
      assert Levels(node)[p] == under[p] && Levels(node)[c] == under[c];
    } else {
      assert c in Names(cs[j]) && c != node.name;
      LevelsKeys(cs[j]);
      LevelsFromAt(node, 0, j, c);
      ChildFewer(node, j);
      assert Levels(node)[c] == under[c] == Levels(cs[j])[c];
    }
  }

  /** The tree's levels, and 0 for the names only a mesh registered. */
  function LevelsOver(bones: map<string, Hierarchy>, root: AiNode): (height: map<string, nat>)
    ensures forall n :: n in bones ==> n in height
    ensures forall n :: n in bones && n in Levels(root) ==> n in height && height[n] == Levels(root)[n]
  {
    map n | n in bones :: if n in Levels(root) then Levels(root)[n] else 0
  }

  /** One child link of a registry linked as a tree with unique names. */
  lemma {:induction false} LinkDescends(bones: map<string, Hierarchy>, root: AiNode, n: string, c: string)
    requires UniqueNames(root) && Linked(bones, root) && n in bones && c in bones[n].children
    ensures c in bones && c in LevelsOver(bones, root) && n in LevelsOver(bones, root)
    ensures LevelsOver(bones, root)[c] < LevelsOver(bones, root)[n]
  {
    LevelsDescend(root, n, c);
  }

  /** A registry linked as a tree with unique names is layered by the
      tree's levels: following children from any entry ends. */
  lemma {:induction false} TreeLayered(bones: map<string, Hierarchy>, root: AiNode)
    requires UniqueNames(root) && Linked(bones, root)
    ensures Layered(bones, LevelsOver(bones, root))
  {
    LinksDescend(bones, root);
    LayeredOver(bones, root);
  }

  /** Every child link goes down in `height`. */
  ghost predicate Descending(bones: map<string, Hierarchy>, height: map<string, nat>)
  {
    forall n, c :: n in bones && c in bones[n].children ==>
      c in bones && c in height && n in height && height[c] < height[n]
  }

  /** In a registry linked as a tree with unique names every child link
      goes down in the tree's levels. */
  lemma LinksDescend(bones: map<string, Hierarchy>, root: AiNode)
    requires UniqueNames(root) && Linked(bones, root)
    ensures Descending(bones, LevelsOver(bones, root))
  {
    var height := LevelsOver(bones, root);
    forall n, c | n in bones && c in bones[n].children
      ensures c in bones && c in height && n in height && height[c] < height[n]
    {
      LinkDescends(bones, root, n, c);
    }
  }

  /** `Layered` by the tree's levels, from its child links: every entry has
      a level by `LevelsOver`'s contract. */
  lemma LayeredOver(bones: map<string, Hierarchy>, root: AiNode)
    requires Descending(bones, LevelsOver(bones, root))
    ensures Layered(bones, LevelsOver(bones, root))
  {
  }

  /** Every name is listed as a child at most once in the whole registry:
      at one position of one entry. The registry is then a forest. */
  ghost predicate Parented(bones: map<string, Hierarchy>)
  {
    forall n1, i, n2, j ::
      (n1 in bones && n2 in bones && 0 <= i < |bones[n1].children| && 0 <= j < |bones[n2].children| &&
       bones[n1].children[i] == bones[n2].children[j]) ==> n1 == n2 && i == j
  }

  /** The names of `s` have no children yet and are listed as nobody's child. */
  ghost predicate Fresh(bones: map<string, Hierarchy>, s: set<string>)
  {
    forall n :: n in bones ==>
      (n in s ==> bones[n].children == []) &&
      (forall i :: 0 <= i < |bones[n].children| ==> bones[n].children[i] !in s)
  }

  /** Registering names keeps the registry a forest. */
  lemma RegistersParented(a: map<string, Hierarchy>, b: map<string, Hierarchy>)
    requires OnlyRegisters(a, b) && Parented(a)
    ensures Parented(b)
  {
  }

  /** Registering names keeps names fresh. */
  lemma RegistersFresh(a: map<string, Hierarchy>, b: map<string, Hierarchy>, s: set<string>)
    requires OnlyRegisters(a, b) && Fresh(a, s)
    ensures Fresh(b, s)
  {
  }

  /** Appending a name listed nowhere keeps the registry a forest. */
  lemma AppendParented(bones: map<string, Hierarchy>, name: string, child: string)
    requires Parented(bones) && name in bones
    requires forall n :: n in bones ==> child !in bones[n].children
    ensures var e := bones[name];
            Parented(bones[name := e.(children := e.children + [child])])
  {
    var e := bones[name];
    var b := bones[name := e.(children := e.children + [child])];
    forall n1, i, n2, j | n1 in b && n2 in b && 0 <= i < |b[n1].children| && 0 <= j < |b[n2].children| &&
      b[n1].children[i] == b[n2].children[j]
      ensures n1 == n2 && i == j
    {
      var k := |e.children|;
      if n1 != name || i != k {
        assert b[n1].children[i] == bones[n1].children[i];
      }
      if n2 != name || j != k {
        assert b[n2].children[j] == bones[n2].children[j];
      }
    }
  }

  /** Appending a name outside `s` to an entry outside `s` keeps `s` fresh. */
  lemma AppendFresh(bones: map<string, Hierarchy>, name: string, child: string, s: set<string>)
    requires Fresh(bones, s) && name in bones && name !in s && child !in s
    ensures var e := bones[name];
            Fresh(bones[name := e.(children := e.children + [child])], s)
  {
    var e := bones[name];
    var b := bones[name := e.(children := e.children + [child])];
    forall n | n in b
      ensures (n in s ==> b[n].children == []) && (forall i :: 0 <= i < |b[n].children| ==> b[n].children[i] !in s)
    {
      if n == name {
        forall i | 0 <= i < |b[n].children| ensures b[n].children[i] !in s {
          if i < |e.children| {
            assert b[n].children[i] == e.children[i];
          }
        }
      }
    }
  }

  /** The links the processing of a subtree adds lie inside the subtree, so
      names outside it stay fresh. */
  lemma LinksFresh(a: map<string, Hierarchy>, b: map<string, Hierarchy>, node: AiNode, s: set<string>)
    requires LinksFrom(a, b, node) && Fresh(a, s) && s !! Names(node)
    ensures Fresh(b, s)
  {
    forall n | n in b
      ensures (n in s ==> b[n].children == []) && (forall i :: 0 <= i < |b[n].children| ==> b[n].children[i] !in s)
    {
      forall i | 0 <= i < |b[n].children| ensures b[n].children[i] !in s && n !in s {
        var c := b[n].children[i];
        if !(n in a && c in a[n].children) {
          EdgeNames(node, n, c);
        } else {
          var k :| 0 <= k < |a[n].children| && a[n].children[k] == c;
        }
      }
      if b[n].children != [] {
        assert b[n].children[0] !in s;
      }
    }
  }

  /** A name outside the subtree listed nowhere stays listed nowhere. */
  lemma LinksUnlisted(a: map<string, Hierarchy>, b: map<string, Hierarchy>, node: AiNode, x: string)
    requires LinksFrom(a, b, node) && x !in Names(node)
    requires forall n :: n in a ==> x !in a[n].children
    ensures forall n :: n in b ==> x !in b[n].children
  {
    forall n | n in b && x in b[n].children ensures false {
      if !(n in a && x in a[n].children) {
        EdgeNames(node, n, x);
      }
    }
  }

  /** A child's subtree names, and the child's own name, are names of the
      tree; with unique names the node's own name is not among them. */
  lemma {:induction false} ChildNames(node: AiNode, i: nat)
    requires i < |node.children|
    ensures node.children[i].name in Names(node.children[i]) && Names(node.children[i]) <= Names(node)
  {
  }

  /** Outside the names `s`, `b` keeps the child lists of `a`, and its new
      entries have no children. */
  ghost predicate KeptOutside(a: map<string, Hierarchy>, b: map<string, Hierarchy>, s: set<string>)
  {
    forall n :: n in b && n !in s ==> b[n].children == if n in a then a[n].children else []
  }

  lemma KeptOutsideTrans(a: map<string, Hierarchy>, b: map<string, Hierarchy>, c: map<string, Hierarchy>,
                         s: set<string>, t: set<string>)
    requires Grows(a, b) && KeptOutside(a, b, s) && KeptOutside(b, c, t) && t <= s
    ensures KeptOutside(a, c, s)
  {
  }

  /** The loop of `processNode` over a tree with unique names, before the
      `i`-th child: the registry a forest that lists the node nowhere, the
      first `i` children listed under the node in order, the subtrees of the
      later children fresh. */
  ghost predicate Stage(bones: map<string, Hierarchy>, node: AiNode, i: nat)
  {
    i <= |node.children| && node.name in bones && Parented(bones) &&
    (forall n :: n in bones ==> node.name !in bones[n].children) &&
    |bones[node.name].children| == i &&
    (forall k :: 0 <= k < i ==> bones[node.name].children[k] == node.children[k].name) &&
    (forall j :: i <= j < |node.children| ==> Fresh(bones, Names(node.children[j])))
  }

  /** What `processNode` needs to keep the registry a forest: the tree has
      unique names, the registry is a forest, and the tree's names are fresh. */
  ghost predicate TreeStart(bones: map<string, Hierarchy>, node: AiNode)
  {
    UniqueNames(node) && Parented(bones) && Fresh(bones, Names(node))
  }

  /** After the node's registration and its meshes, the loop starts. */
  lemma StageStart(a: map<string, Hierarchy>, b: map<string, Hierarchy>, node: AiNode)
    requires TreeStart(a, node) && OnlyRegisters(a, b) && node.name in b
    ensures Stage(b, node, 0)
  {
    RegistersParented(a, b);
    RegistersFresh(a, b, Names(node));
    forall j | 0 <= j < |node.children| ensures Fresh(b, Names(node.children[j])) {
      ChildNames(node, j);
    }
  }

  /** The node registered and its meshes processed: names were only
      registered, and the child loop can start. */
  lemma NodeStarted(a: map<string, Hierarchy>, r: map<string, Hierarchy>, b: map<string, Hierarchy>,
                    node: AiNode, tree: bool)
    requires OnlyRegisters(a, r) && OnlyRegisters(r, b) && node.name in b
    requires tree ==> TreeStart(a, node)
    ensures Grows(a, b) && LinksFrom(a, b, node) && KeptOutside(a, b, Names(node))
    ensures tree ==> UniqueNames(node) && Stage(b, node, 0)
  {
    OnlyRegistersTrans(a, r, b);
    RegistersLinks(a, b, node);
    if tree {
      StageStart(a, b, node);
    }
  }

  /** Two pieces of processing of the same subtree make one. */
  lemma LinksPieced(a: map<string, Hierarchy>, b: map<string, Hierarchy>, c: map<string, Hierarchy>, node: AiNode)
    requires Grows(a, b) && LinksFrom(a, b, node) && KeptOutside(a, b, Names(node))
    requires Grows(b, c) && LinksFrom(b, c, node) && KeptOutside(b, c, Names(node))
    ensures Grows(a, c) && LinksFrom(a, c, node) && KeptOutside(a, c, Names(node))
  {
    GrowsTrans(a, b, c);
    LinksTrans(a, b, c, node);
    KeptOutsideTrans(a, b, c, Names(node), Names(node));
  }

  /** One child processed, then appended to the node's entry. */
  lemma StageNext(before: map<string, Hierarchy>, after: map<string, Hierarchy>, node: AiNode, i: nat)
    requires UniqueNames(node) && i < |node.children| && Stage(before, node, i)
    requires Grows(before, after) && LinksFrom(before, after, node.children[i])
    requires KeptOutside(before, after, Names(node.children[i]))
    requires Parented(after) && forall n :: n in after ==> node.children[i].name !in after[n].children
    ensures var e := after[node.name];
            Stage(after[node.name := e.(children := e.children + [node.children[i].name])], node, i + 1)
  {
    var child := node.children[i];
    ChildNames(node, i);
    LinksUnlisted(before, after, child, node.name);
    var e := after[node.name];
    var b := after[node.name := e.(children := e.children + [child.name])];
    assert e.children == before[node.name].children;
    AppendParented(after, node.name, child.name);
    forall j | i + 1 <= j < |node.children| ensures Fresh(b, Names(node.children[j])) {
      ChildNames(node, j);
      LinksFresh(before, after, child, Names(node.children[j]));
      AppendFresh(after, node.name, child.name, Names(node.children[j]));
    }
    forall k | 0 <= k < i + 1 ensures b[node.name].children[k] == node.children[k].name {
      if k < i {
        assert b[node.name].children[k] == e.children[k];
      }
    }
  }

  // ---------------------------------------------------------------------
  // The model

  class Model {
    var meshes: seq<Mesh>
    var texturesLoaded: seq<Texture>
    var bones: map<string, Hierarchy>
    ghost var order: seq<string>
    var root: Option<string>
    var bounds: Option<Bounds>

    ghost predicate Valid()
      reads this
    {
      RegistryOk(bones, order) && DistinctPaths(texturesLoaded) && Covers(bounds, meshes)
    }

    /** `Model(path)`: the scene's node tree processed from its root node;
        the root names the root node's registry entry. */
    constructor(scene: AiScene, rootNode: AiNode, textureId: string -> nat)
      requires SceneWf(scene) && NodeWf(rootNode, |scene.meshes|)
      ensures Valid() && root == Some(rootNode.name) && rootNode.name in bones
      ensures Linked(bones, rootNode) && (UniqueNames(rootNode) ==> Parented(bones))
    {
      meshes := [];
      texturesLoaded := [];
      bones := map[];
      order := [];
      root := None;
      bounds := None;
      new;
      ProcessNode(scene, rootNode, textureId, UniqueNames(rootNode));
      LinkedFromEmpty(bones, rootNode);
      root := Some(rootNode.name);
    }

    /** The `contains`/`emplace` pair of `processNode` and `processVertices`. */
    method Register(name: string, offset: Mat4)
      requires Valid()
      modifies this
      ensures Valid() && bones == Registered(old(bones), name, offset)
      ensures name in bones && OnlyRegisters(old(bones), bones)
      ensures meshes == old(meshes) && texturesLoaded == old(texturesLoaded)
      ensures root == old(root) && bounds == old(bounds)
    {
      RegisteredOk(bones, order, name, offset);
      if name !in bones {
        bones := bones[name := Hierarchy(|bones|, offset, name, [])];
        order := order + [name];
      }
    }

    /** `processVertices`: the vertex loop, then every bone registered and
        its weights placed, then every vertex's weights normalised. `mn0`
        and `mx0` stand for the uninitialised vectors of `processMesh`. */
    method ProcessVertices(m: AiMesh, mn0: Vec3, mx0: Vec3) returns (vs: seq<Vertex>, mn: Vec3, mx: Vec3)
      requires Valid() && VerticesWf(m)
      modifies this
      ensures Valid() && OnlyRegisters(old(bones), bones)
      ensures forall b :: 0 <= b < |m.bones| ==> m.bones[b].name in bones
      ensures vs == MeshVertices(m, BoneIds(bones, m.bones))
      ensures |m.vertices| == 0 ==> mn == mn0 && mx == mx0
      ensures |m.vertices| > 0 ==> mn == MinOf(Positions(m)) && mx == MaxOf(Positions(m))
      ensures meshes == old(meshes) && texturesLoaded == old(texturesLoaded)
      ensures root == old(root) && bounds == old(bounds)
    {
      vs, mn, mx := FillVertices(m, mn0, mx0);
      BaseVerticesSlots(m);
      var placed, registry;
      ghost var names;
      placed, registry, names := PlaceBones(vs, m.bones, bones, order);
      vs := NormaliseAll(placed);
      MeshVerticesOf(m, BoneIds(registry, m.bones), placed, vs);
      bones := registry;
      order := names;
    }

    /** `loadMaterialTextures`: for each path, the loaded texture with that
        path if there is one, otherwise a newly loaded texture that is also
        recorded in `texturesLoaded_`. */
    method LoadMaterialTextures(textures: seq<Texture>, paths: seq<string>, kind: string, textureId: string -> nat)
      returns (out: seq<Texture>)
      requires Valid()
      modifies this
      ensures Valid()
      ensures out == textures + LoadAll(old(texturesLoaded), paths, kind, textureId).0
      ensures texturesLoaded == LoadAll(old(texturesLoaded), paths, kind, textureId).1
      ensures meshes == old(meshes) && bones == old(bones) && root == old(root) && bounds == old(bounds)
    {
      LoadAllFacts(texturesLoaded, paths, kind, textureId);
      var loaded;
      out, loaded := LoadPaths(texturesLoaded, textures, paths, kind, textureId);
      texturesLoaded := loaded;
    }

    /** `processTextures`: the textures of one material, loading the paths
        not loaded before. */
    method ProcessTextures(mat: AiMaterial, textureId: string -> nat) returns (ts: seq<Texture>)
      requires Valid()
      modifies this
      ensures Valid()
      ensures (ts, texturesLoaded) == MaterialTextures(old(texturesLoaded), mat, textureId)
      ensures meshes == old(meshes) && bones == old(bones) && root == old(root) && bounds == old(bounds)
    {
      ghost var l0 := texturesLoaded;
      ts := LoadMaterialTextures([], mat.diffuse, "texture_diffuse", textureId);
      ghost var d, l1 := ts, texturesLoaded;
      ts := LoadMaterialTextures(ts, mat.specular, "texture_specular", textureId);
      ghost var l2 := texturesLoaded;
      ts := LoadMaterialTextures(ts, mat.height, "texture_normal", textureId);
      ghost var l3 := texturesLoaded;
      ts := LoadMaterialTextures(ts, mat.ambient, "texture_height", textureId);
      assert d == LoadAll(l0, mat.diffuse, "texture_diffuse", textureId).0;
      assert ts == d + LoadAll(l1, mat.specular, "texture_specular", textureId).0
                     + LoadAll(l2, mat.height, "texture_normal", textureId).0
                     + LoadAll(l3, mat.ambient, "texture_height", textureId).0;
    }

    /** `processMesh`: the vertices (with their bounds), the indices and the
        textures of one mesh; the bounds of a mesh without vertices are the
        uninitialised vectors, taken to be zero here. */
    method ProcessMesh(scene: AiScene, m: AiMesh, textureId: string -> nat) returns (mesh: Mesh)
      requires Valid() && MeshWf(m, |scene.materials|)
      modifies this
      ensures Valid() && OnlyRegisters(old(bones), bones)
      ensures forall b :: 0 <= b < |m.bones| ==> m.bones[b].name in bones
      ensures mesh.vertices == MeshVertices(m, BoneIds(bones, m.bones))
      ensures mesh.indices == Flatten(m.faces)
      ensures |m.vertices| > 0 ==> mesh.min == MinOf(Positions(m)) && mesh.max == MaxOf(Positions(m))
      ensures (mesh.textures, texturesLoaded) == MaterialTextures(old(texturesLoaded), scene.materials[m.materialIndex], textureId)
      ensures mesh.name == m.name
      ensures meshes == old(meshes) && root == old(root) && bounds == old(bounds)
    {
      var vs, mn, mx := ProcessVertices(m, Zero, Zero);
      var indices := ProcessIndices(m.faces);
      var ts := ProcessTextures(scene.materials[m.materialIndex], textureId);
      mesh := Mesh(vs, indices, ts, mn, mx, m.name);
    }

    /** The mesh loop of `processNode`: each mesh of the node processed,
        pushed, and merged into the model's bounds; the merge takes the mesh
        just pushed. */
    method ProcessMeshes(scene: AiScene, node: AiNode, textureId: string -> nat)
      requires Valid() && SceneWf(scene) && NodeWf(node, |scene.meshes|)
      modifies this
      ensures Valid() && OnlyRegisters(old(bones), bones) && root == old(root)
      ensures old(meshes) <= meshes && |meshes| == |old(meshes)| + |node.meshes|
    {
      var i := 0;
      while i < |node.meshes|
        invariant 0 <= i <= |node.meshes|
        invariant Valid() && OnlyRegisters(old(bones), bones) && root == old(root)
        invariant old(meshes) <= meshes && |meshes| == |old(meshes)| + i
      {
        ghost var before := bones;
        PushMesh(scene, scene.meshes[node.meshes[i]], textureId);
        OnlyRegistersTrans(old(bones), before, bones);
        i := i + 1;
      }
    }

    /** One step of the mesh loop of `processNode`: the mesh processed and
        pushed, and the bounds merged with it. */
    method PushMesh(scene: AiScene, m: AiMesh, textureId: string -> nat)
      requires Valid() && MeshWf(m, |scene.materials|)
      modifies this
      ensures Valid() && OnlyRegisters(old(bones), bones) && root == old(root)
      ensures |meshes| == |old(meshes)| + 1 && old(meshes) <= meshes
      ensures meshes[|old(meshes)|].name == m.name && meshes[|old(meshes)|].indices == Flatten(m.faces)
    {
      var mesh := ProcessMesh(scene, m, textureId);
      Push(mesh);
    }

    /** `meshes_.push_back(...)` and the merge of the bounds with the mesh
        just pushed. */
    method Push(mesh: Mesh)
      requires Valid()
      modifies this
      ensures Valid() && meshes == old(meshes) + [mesh]
      ensures bones == old(bones) && root == old(root) && texturesLoaded == old(texturesLoaded)
    {
      MergedCovers(bounds, meshes, mesh);
      meshes := meshes + [mesh];
      bounds := Merged(bounds, meshes);
    }

    /** `processNode`: the node registered under its name, its meshes
        processed, then its children in order, each appended to the node's
        entry once processed. */
    method ProcessNode(scene: AiScene, node: AiNode, textureId: string -> nat, ghost tree: bool)
      requires Valid() && SceneWf(scene) && NodeWf(node, |scene.meshes|)
      requires tree ==> TreeStart(bones, node)
      modifies this
      ensures Valid() && Grows(old(bones), bones) && node.name in bones
      ensures LinksFrom(old(bones), bones, node) && KeptOutside(old(bones), bones, Names(node))
      ensures tree ==> Parented(bones) && forall n :: n in bones ==> node.name !in bones[n].children
      ensures old(meshes) <= meshes && root == old(root)
      decreases node, 2
    {
      Register(node.name, ConvertMatrixToGlm(node.transformation));
      ghost var registered := bones;
      ProcessMeshes(scene, node, textureId);
      NodeStarted(old(bones), registered, bones, node, tree);
      ghost var started := bones;
      ProcessChildren(scene, node, textureId, tree);
      LinksPieced(old(bones), started, bones, node);
    }

    /** The child loop of `processNode`. */
    method ProcessChildren(scene: AiScene, node: AiNode, textureId: string -> nat, ghost tree: bool)
      requires Valid() && SceneWf(scene) && NodeWf(node, |scene.meshes|) && node.name in bones
      requires tree ==> UniqueNames(node) && Stage(bones, node, 0)
      modifies this
      ensures Valid() && Grows(old(bones), bones) && node.name in bones
      ensures LinksFrom(old(bones), bones, node) && KeptOutside(old(bones), bones, Names(node))
      ensures tree ==> Stage(bones, node, |node.children|)
      ensures old(meshes) <= meshes && root == old(root)
      decreases node, 1
    {
      var i: nat := 0;
      while i < |node.children|
        invariant i <= |node.children|
        invariant Valid() && Grows(old(bones), bones) && node.name in bones
        invariant LinksFrom(old(bones), bones, node) && KeptOutside(old(bones), bones, Names(node))
        invariant tree ==> Stage(bones, node, i)
        invariant old(meshes) <= meshes && root == old(root)
      {
        ghost var before := bones;
        ProcessChild(scene, node, i, textureId, tree);
        LinksPieced(old(bones), before, bones, node);
        i := i + 1;
      }
    }

    /** One turn of the child loop of `processNode`: the `i`-th child
        processed, then appended to the node's entry. */
    method ProcessChild(scene: AiScene, node: AiNode, i: nat, textureId: string -> nat, ghost tree: bool)
      requires Valid() && SceneWf(scene) && NodeWf(node, |scene.meshes|) && i < |node.children| && node.name in bones
      requires tree ==> UniqueNames(node) && Stage(bones, node, i)
      modifies this
      ensures Valid() && Grows(old(bones), bones) && node.name in bones
      ensures LinksFrom(old(bones), bones, node) && KeptOutside(old(bones), bones, Names(node))
      ensures tree ==> Stage(bones, node, i + 1)
      ensures old(meshes) <= meshes && root == old(root)
      decreases node, 0
    {
      var child := node.children[i];
      ChildNames(node, i);
      ProcessNode(scene, child, textureId, tree);
      LinksOfChild(old(bones), bones, node, i);
      ghost var after := bones;
      if tree {
        StageNext(old(bones), after, node, i);
      }
      ChildLinked(bones, node, i);
      AddChild(node.name, child.name);
      GrowsTrans(old(bones), after, bones);
      LinksTrans(old(bones), after, bones, node);
    }

    /** `bonesLoaded_.at(nodeName).children.push_back(child)`. */
    method AddChild(name: string, child: string)
      requires Valid() && name in bones
      modifies this
      ensures Valid() && Grows(old(bones), bones) && name in bones
      ensures bones == old(bones)[name := old(bones)[name].(children := old(bones)[name].children + [child])]
      ensures meshes == old(meshes) && root == old(root)
    {
      ChildAddedOk(bones, order, name, child);
      var entry := bones[name];
      bones := bones[name := entry.(children := entry.children + [child])];
    }
  }
}
