/** The adaptive octree over AABBs. A node is a box region holding a list of
    boxes and either no children or eight octant children one level deeper.
    The tree is modelled as a value: `Insert` and `Query` are the defining
    functions, `InsertNode` and `QueryNode` the loop-based procedures proved
    equal to them, and the class `Octree` holds the (possibly missing) root. */
module Octrees {
  import opened Linear
  import opened Results
  import opened Boxes

  /** OCTREE_MAX_DEPTH and OCTREE_MAX_OBJECTS, the defaults every node gets. */
  const MaxDepth: nat := 5
  const MaxObjects: nat := 4

  datatype Node = Node(region: AABB, objects: seq<AABB>, children: seq<Node>, depth: nat)

  /** A freshly allocated node: no boxes, no children. */
  function Leaf(region: AABB, depth: nat): Node
  {
    Node(region, [], [], depth)
  }

  /** `isLeaf`: the node has no children. */
  predicate IsLeaf(n: Node)
  {
    |n.children| == 0
  }

  /** Bit b (1, 2 or 4) of the octant number i picks the upper half on that axis. */
  predicate Upper(i: nat, bit: nat)
    requires bit == 1 || bit == 2 || bit == 4
  {
    (i / bit) % 2 == 1
  }

  /** The region of child i of `subdivide`: on x/y/z, bit 1/2/4 of i chooses
      [centre, max] over [min, centre]. Children are built without a tag. */
  function Octant(r: AABB, i: nat): AABB
  {
    var c := Centre(r);
    AABB(Vec3(if Upper(i, 1) then c.x else r.min.x,
              if Upper(i, 2) then c.y else r.min.y,
              if Upper(i, 4) then c.z else r.min.z),
         Vec3(if Upper(i, 1) then r.max.x else c.x,
              if Upper(i, 2) then r.max.y else c.y,
              if Upper(i, 4) then r.max.z else c.z),
         None)
  }

  /** The eight empty children that `subdivide` allocates. */
  function Subdivide(r: AABB, depth: nat): (kids: seq<Node>)
    ensures |kids| == 8
    ensures forall i :: 0 <= i < 8 ==> kids[i] == Leaf(Octant(r, i), depth + 1)
  {
    seq(8, i requires 0 <= i < 8 => Leaf(Octant(r, i), depth + 1))
  }

  /** The structural invariant of every node: depth at most MaxDepth, and
      either no children or exactly the eight octants, one level deeper
      (which only a node shallower than MaxDepth can have). */
  ghost predicate Shape(n: Node)
    decreases n
  {
    n.depth <= MaxDepth &&
    (|n.children| == 0 ||
     (|n.children| == 8 && n.depth < MaxDepth &&
      forall i :: 0 <= i < 8 ==>
        n.children[i].region == Octant(n.region, i) &&
        n.children[i].depth == n.depth + 1 &&
        Shape(n.children[i])))
  }

  /** Children that keep the shape invariant at depth d, with the given regions. */
  ghost predicate KidsShape(kids: seq<Node>, d: nat)
  {
    forall i :: 0 <= i < |kids| ==> kids[i].depth == d && Shape(kids[i])
  }

  /** Index of the first child whose region contains b, or |kids| if none does. */
  function FirstContaining(kids: seq<Node>, b: AABB): (i: nat)
    ensures i <= |kids|
    ensures i < |kids| ==> Contains(kids[i].region, b)
    ensures forall j :: 0 <= j < i ==> !Contains(kids[j].region, b)
  {
    if |kids| == 0 then 0
    else if Contains(kids[0].region, b) then 0
    else 1 + FirstContaining(kids[1..], b)
  }

  /** The children and the left-over list after redistributing a split leaf. */
  datatype Spread = Spread(kids: seq<Node>, rest: seq<AABB>)

  /** `OctreeNode::insert`. */
  function Insert(n: Node, b: AABB): (r: Node)
    requires Shape(n)
    ensures Shape(r) && r.region == n.region && r.depth == n.depth
    decreases MaxDepth - n.depth, 2, 0
  {
    if !Intersects(n.region, b) then n
    else if IsLeaf(n) then
      var objs := n.objects + [b];
      if |objs| > MaxObjects && n.depth < MaxDepth then Split(n, objs) else n.(objects := objs)
    else
      var i := FirstContaining(n.children, b);
      if i < |n.children| then n.(children := n.children[i := Insert(n.children[i], b)])
      else n.(objects := n.objects + [b])
  }

  /** The split of a leaf whose list `objs` overflowed: subdivide, then hand
      each box to the first child that contains it, keeping the rest. */
  function Split(n: Node, objs: seq<AABB>): (r: Node)
    requires Shape(n) && IsLeaf(n) && n.depth < MaxDepth
    ensures Shape(r) && r.region == n.region && r.depth == n.depth
    decreases MaxDepth - n.depth, 1, 0
  {
    var s := Distribute(Subdivide(n.region, n.depth), objs, n.depth);
    n.(objects := s.rest, children := s.kids)
  }

  /** The redistribution loop of a split, over the boxes in list order. */
  function Distribute(kids: seq<Node>, objs: seq<AABB>, d: nat): (s: Spread)
    requires d < MaxDepth && KidsShape(kids, d + 1)
    ensures |s.kids| == |kids| && KidsShape(s.kids, d + 1)
    ensures forall i :: 0 <= i < |kids| ==> s.kids[i].region == kids[i].region
    decreases MaxDepth - d, 0, |objs|
  {
    if |objs| == 0 then Spread(kids, [])
    else Place(Distribute(kids, objs[..|objs| - 1], d), objs[|objs| - 1], d)
  }

  /** One step of the redistribution: the box goes to the first child that
      contains it, or is kept. */
  function Place(s: Spread, o: AABB, d: nat): (r: Spread)
    requires d < MaxDepth && KidsShape(s.kids, d + 1)
    ensures |r.kids| == |s.kids| && KidsShape(r.kids, d + 1)
    ensures forall i :: 0 <= i < |s.kids| ==> r.kids[i].region == s.kids[i].region
    decreases MaxDepth - d, 0, 0
  {
    var i := FirstContaining(s.kids, o);
    if i < |s.kids| then Spread(s.kids[i := Insert(s.kids[i], o)], s.rest)
    else Spread(s.kids, s.rest + [o])
  }

  /** The boxes `query` returns from one node's own list. */
  function Filter(objs: seq<AABB>, range: AABB): seq<AABB>
  {
    if |objs| == 0 then []
    else Filter(objs[..|objs| - 1], range) + (if Intersects(objs[|objs| - 1], range) then [objs[|objs| - 1]] else [])
  }

  /** `OctreeNode::query`: nothing if the node misses the range, otherwise its
      own boxes that meet the range, then each child's answer in order. */
  function Query(n: Node, range: AABB): seq<AABB>
    decreases n, 1
  {
    if !Intersects(n.region, range) then []
    else Filter(n.objects, range) + QueryKids(n.children, range, |n.children|)
  }

  function QueryKids(kids: seq<Node>, range: AABB, k: nat): seq<AABB>
    requires k <= |kids|
    decreases kids, 0, k
  {
    if k == 0 then [] else QueryKids(kids, range, k - 1) + Query(kids[k - 1], range)
  }

  /** Every box held anywhere in the subtree, with multiplicity. */
  function Stored(n: Node): multiset<AABB>
    decreases n, 1
  {
    multiset(n.objects) + StoredKids(n.children, |n.children|)
  }

  function StoredKids(kids: seq<Node>, k: nat): multiset<AABB>
    requires k <= |kids|
    decreases kids, 0, k
  {
    if k == 0 then multiset{} else StoredKids(kids, k - 1) + Stored(kids[k - 1])
  }

  function AllKids(kids: seq<Node>): multiset<AABB>
  {
    StoredKids(kids, |kids|)
  }

  ghost predicate AllWf(m: multiset<AABB>)
  {
    forall x | x in m :: Wf(x)
  }

  /** Each box stored in the subtree meets the node's region. */
  ghost predicate Hits(n: Node)
  {
    forall x | x in Stored(n) :: Intersects(n.region, x)
  }

  /** Each box stored in the subtree lies inside the node's region. */
  ghost predicate Within(n: Node)
  {
    forall x | x in Stored(n) :: Contains(n.region, x)
  }

  /** The placement invariant `query` relies on: every subtree meets its own
      region, and every child subtree lies inside the child's region. */
  ghost predicate Placed(n: Node)
    decreases n, 1
  {
    Hits(n) && KidsPlaced(n.children)
  }

  ghost predicate KidsPlaced(kids: seq<Node>)
    decreases kids, 0
  {
    forall i :: 0 <= i < |kids| ==> Within(kids[i]) && Placed(kids[i])
  }

  // ---------------------------------------------------------------------
  // Subdivision geometry

  /** Every octant of a non-empty region is non-empty and inside it. */
  lemma OctantInside(r: AABB, i: nat)
    requires Wf(r)
    ensures Wf(Octant(r, i)) && Contains(r, Octant(r, i))
  {
  }

  /** The eight octants cover the region: each of its points lies in one of them. */
  lemma OctantsCover(r: AABB, p: Vec3)
    requires ContainsPoint(r, p)
    ensures exists i :: 0 <= i < 8 && ContainsPoint(Octant(r, i), p)
  {
    var c := Centre(r);
    var i := (if p.x >= c.x then 1 else 0) + (if p.y >= c.y then 2 else 0) + (if p.z >= c.z then 4 else 0);
    assert Upper(i, 1) <==> p.x >= c.x;
    assert Upper(i, 2) <==> p.y >= c.y;
    assert Upper(i, 4) <==> p.z >= c.z;
    assert ContainsPoint(Octant(r, i), p);
  }

  // ---------------------------------------------------------------------
  // Multiset bookkeeping

  /** What a redistribution holds: the kept boxes and all the children's. */
  function Tally(s: Spread): multiset<AABB>
  {
    multiset(s.rest) + AllKids(s.kids)
  }

  lemma {:induction false} StoredKidsEmpty(kids: seq<Node>, k: nat)
    requires k <= |kids|
    requires forall i :: 0 <= i < |kids| ==> kids[i].objects == [] && kids[i].children == []
    ensures StoredKids(kids, k) == multiset{}
  {
    if k > 0 {
      StoredKidsEmpty(kids, k - 1);
      assert Stored(kids[k - 1]) == multiset{};
    }
  }

  /** One child's boxes are among all the children's boxes. */
  lemma {:induction false} StoredKidsPart(kids: seq<Node>, k: nat, i: nat)
    requires i < k <= |kids|
    ensures Stored(kids[i]) <= StoredKids(kids, k)
  {
    if i < k - 1 {
      StoredKidsPart(kids, k - 1, i);
    }
  }

  /** The first k children's boxes depend on the first k children only. */
  lemma {:induction false} StoredKidsSame(a: seq<Node>, b: seq<Node>, k: nat)
    requires k <= |a| && k <= |b| && a[..k] == b[..k]
    ensures StoredKids(a, k) == StoredKids(b, k)
  {
    if k > 0 {
      assert a[k - 1] == a[..k][k - 1];
      assert b[k - 1] == b[..k][k - 1];
      assert a[..k - 1] == a[..k][..k - 1];
      assert b[..k - 1] == b[..k][..k - 1];
      StoredKidsSame(a, b, k - 1);
    }
  }

  /** Replacing child i replaces its share of the children's boxes. */
  lemma {:induction false} StoredKidsUpdate(kids: seq<Node>, k: nat, i: nat, c: Node)
    requires i < k <= |kids|
    ensures StoredKids(kids[i := c], k) + Stored(kids[i]) == StoredKids(kids, k) + Stored(c)
  {
    var updated := kids[i := c];
    assert StoredKids(updated, k) == StoredKids(updated, k - 1) + Stored(updated[k - 1]);
    assert StoredKids(kids, k) == StoredKids(kids, k - 1) + Stored(kids[k - 1]);
    if i == k - 1 {
      assert updated[..k - 1] == kids[..k - 1];
      StoredKidsSame(updated, kids, k - 1);
      assert updated[k - 1] == c;
    } else {
      StoredKidsUpdate(kids, k - 1, i, c);
      assert updated[k - 1] == kids[k - 1];
      AddBoth(StoredKids(updated, k - 1), StoredKids(kids, k - 1), Stored(kids[i]), Stored(c), Stored(kids[k - 1]));
    }
  }

  lemma AddBoth(a: multiset<AABB>, b: multiset<AABB>, x: multiset<AABB>, y: multiset<AABB>, z: multiset<AABB>)
    requires a + x == b + y
    ensures (a + z) + x == (b + z) + y
  {
    forall e
      ensures ((a + z) + x)[e] == ((b + z) + y)[e]
    {
      assert (a + x)[e] == (b + y)[e];
    }
  }

  /** Cancelling one child's share. */
  lemma ShareStep(own: multiset<AABB>, kids: multiset<AABB>, kids': multiset<AABB>,
                  c: multiset<AABB>, c': multiset<AABB>, b: AABB)
    requires kids' + c == kids + c'
    ensures c' <= c + multiset{b} ==> own + kids' <= own + kids + multiset{b}
    ensures c' == c + multiset{b} ==> own + kids' == own + kids + multiset{b}
  {
    forall x
      ensures kids'[x] + c[x] == kids[x] + c'[x]
    {
      assert (kids' + c)[x] == (kids + c')[x];
    }
    if c' <= c + multiset{b} {
      forall x
        ensures (own + kids')[x] <= (own + kids + multiset{b})[x]
      {
        assert c'[x] <= (c + multiset{b})[x];
      }
    }
    if c' == c + multiset{b} {
      forall x
        ensures (own + kids')[x] == (own + kids + multiset{b})[x]
      {
        assert c'[x] == (c + multiset{b})[x];
      }
    }
  }

  lemma AllWfSub(a: multiset<AABB>, b: multiset<AABB>)
    requires a <= b && AllWf(b)
    ensures AllWf(a)
  {
  }

  // ---------------------------------------------------------------------
  // No loss, no duplication

  /** A box that misses the node's region leaves the whole subtree unchanged. */
  lemma InsertMiss(n: Node, b: AABB)
    requires Shape(n) && !Intersects(n.region, b)
    ensures Insert(n, b) == n
  {
  }

  /** Insert never stores anything but the new box, at most once; when the
      new box and everything already stored are non-empty boxes, it stores
      the new box exactly once. (An inverted box, min > max on some axis, can
      be handed to a child that contains it but does not meet it, which then
      drops it.) */
  lemma {:induction false} InsertStored(n: Node, b: AABB)
    requires Shape(n) && Intersects(n.region, b)
    ensures Stored(Insert(n, b)) <= Stored(n) + multiset{b}
    ensures Wf(b) && AllWf(Stored(n)) ==> Stored(Insert(n, b)) == Stored(n) + multiset{b}
    decreases MaxDepth - n.depth, 3, 0
  {
    if IsLeaf(n) {
      LeafStored(n, b);
    } else {
      InnerStored(n, b);
    }
  }

  lemma {:induction false} LeafStored(n: Node, b: AABB)
    requires Shape(n) && IsLeaf(n) && Intersects(n.region, b)
    ensures Stored(Insert(n, b)) <= Stored(n) + multiset{b}
    ensures Wf(b) && AllWf(Stored(n)) ==> Stored(Insert(n, b)) == Stored(n) + multiset{b}
    decreases MaxDepth - n.depth, 2, 0
  {
    var objs := n.objects + [b];
    assert Stored(n) == multiset(n.objects);
    assert multiset(objs) == Stored(n) + multiset{b};
    if |objs| > MaxObjects && n.depth < MaxDepth {
      SplitStored(n, objs);
    } else {
      assert Stored(n.(objects := objs)) == multiset(objs);
    }
  }

  lemma {:induction false} InnerStored(n: Node, b: AABB)
    requires Shape(n) && !IsLeaf(n) && Intersects(n.region, b)
    ensures Stored(Insert(n, b)) <= Stored(n) + multiset{b}
    ensures Wf(b) && AllWf(Stored(n)) ==> Stored(Insert(n, b)) == Stored(n) + multiset{b}
    decreases MaxDepth - n.depth, 2, 0
  {
    var kids := n.children;
    var i := FirstContaining(kids, b);
    if i < |kids| {
      var c := kids[i];
      var c' := Insert(c, b);
      var r := n.(children := kids[i := c']);
      assert Insert(n, b) == r;
      assert Stored(r) == multiset(n.objects) + AllKids(kids[i := c']);
      StoredKidsUpdate(kids, |kids|, i, c');
      ChildStored(c, b);
      ShareStep(multiset(n.objects), AllKids(kids), AllKids(kids[i := c']), Stored(c), Stored(c'), b);
      if Wf(b) && AllWf(Stored(n)) {
        StoredKidsPart(kids, |kids|, i);
        AllWfSub(Stored(c), Stored(n));
      }
    } else {
      assert Stored(Insert(n, b)) == Stored(n) + multiset{b};
    }
  }

  /** Insertion into a child whose region contains the box. */
  lemma {:induction false} ChildStored(c: Node, b: AABB)
    requires Shape(c) && Contains(c.region, b)
    ensures Stored(Insert(c, b)) <= Stored(c) + multiset{b}
    ensures Wf(b) && AllWf(Stored(c)) ==> Stored(Insert(c, b)) == Stored(c) + multiset{b}
    decreases MaxDepth - c.depth, 4, 0
  {
    if Intersects(c.region, b) {
      InsertStored(c, b);
    } else if Wf(b) {
      assert false;  // a non-empty box inside the region meets it
    } else {
      InsertMiss(c, b);
    }
  }

  lemma {:induction false} SplitStored(n: Node, objs: seq<AABB>)
    requires Shape(n) && IsLeaf(n) && n.depth < MaxDepth
    ensures Stored(Split(n, objs)) <= multiset(objs)
    ensures AllWf(multiset(objs)) ==> Stored(Split(n, objs)) == multiset(objs)
    decreases MaxDepth - n.depth, 1, 0
  {
    var kids := Subdivide(n.region, n.depth);
    StoredKidsEmpty(kids, |kids|);
    DistributeStored(kids, objs, n.depth);
  }

  lemma {:induction false} DistributeStored(kids: seq<Node>, objs: seq<AABB>, d: nat)
    requires d < MaxDepth && KidsShape(kids, d + 1)
    ensures Tally(Distribute(kids, objs, d)) <= multiset(objs) + AllKids(kids)
    ensures AllWf(multiset(objs)) && AllWf(AllKids(kids)) ==>
            Tally(Distribute(kids, objs, d)) == multiset(objs) + AllKids(kids)
    decreases MaxDepth - d, 0, |objs|
  {
    if |objs| > 0 {
      var pre := objs[..|objs| - 1];
      var o := objs[|objs| - 1];
      assert objs == pre + [o];
      assert multiset(objs) == multiset(pre) + multiset{o};
      DistributeStored(kids, pre, d);
      var s := Distribute(kids, pre, d);
      PlaceStored(s, o, d);
      if AllWf(multiset(objs)) && AllWf(AllKids(kids)) {
        AllWfSub(multiset(pre), multiset(objs));
        assert o in multiset(objs);
      }
    }
  }

  lemma {:induction false} PlaceStored(s: Spread, o: AABB, d: nat)
    requires d < MaxDepth && KidsShape(s.kids, d + 1)
    ensures Tally(Place(s, o, d)) <= Tally(s) + multiset{o}
    ensures Wf(o) && AllWf(Tally(s)) ==> Tally(Place(s, o, d)) == Tally(s) + multiset{o}
    decreases MaxDepth - d, 0, 0
  {
    var i := FirstContaining(s.kids, o);
    if i < |s.kids| {
      var c := s.kids[i];
      var c' := Insert(c, o);
      assert Place(s, o, d) == Spread(s.kids[i := c'], s.rest);
      StoredKidsUpdate(s.kids, |s.kids|, i, c');
      ChildStored(c, o);
      ShareStep(multiset(s.rest), AllKids(s.kids), AllKids(s.kids[i := c']), Stored(c), Stored(c'), o);
      if Wf(o) && AllWf(Tally(s)) {
        StoredKidsPart(s.kids, |s.kids|, i);
        AllWfSub(Stored(c), Tally(s));
      }
    } else {
      assert multiset(s.rest + [o]) == multiset(s.rest) + multiset{o};
    }
  }

  /** The count form: for well-formed boxes the stored multiset grows by
      exactly the inserted box when it meets the region, and not at all
      otherwise; well-formedness of everything stored is kept. */
  lemma InsertCount(n: Node, b: AABB)
    requires Shape(n) && Wf(b) && AllWf(Stored(n))
    ensures Stored(Insert(n, b)) == Stored(n) + (if Intersects(n.region, b) then multiset{b} else multiset{})
    ensures AllWf(Stored(Insert(n, b)))
  {
    if Intersects(n.region, b) {
      InsertStored(n, b);
    }
  }

  // ---------------------------------------------------------------------
  // Placement

  lemma HitsKept(r: Node, n: Node, b: AABB)
    requires r.region == n.region && Hits(n) && Intersects(n.region, b)
    requires Stored(r) <= Stored(n) + multiset{b}
    ensures Hits(r)
  {
  }

  lemma {:induction false} InsertPlaced(n: Node, b: AABB)
    requires Shape(n) && Placed(n) && Intersects(n.region, b)
    ensures Placed(Insert(n, b))
    decreases MaxDepth - n.depth, 3, 0
  {
    InsertStored(n, b);
    HitsKept(Insert(n, b), n, b);
    if IsLeaf(n) {
      LeafPlaced(n, b);
    } else {
      InnerPlaced(n, b);
    }
  }

  lemma {:induction false} LeafPlaced(n: Node, b: AABB)
    requires Shape(n) && IsLeaf(n) && Placed(n) && Intersects(n.region, b)
    ensures KidsPlaced(Insert(n, b).children)
    decreases MaxDepth - n.depth, 2, 0
  {
    var objs := n.objects + [b];
    if |objs| > MaxObjects && n.depth < MaxDepth {
      assert Stored(n) == multiset(n.objects);
      assert forall x | x in objs :: x in Stored(n) || x == b;
      SplitPlaced(n, objs);
    }
  }

  lemma {:induction false} InnerPlaced(n: Node, b: AABB)
    requires Shape(n) && !IsLeaf(n) && Placed(n) && Intersects(n.region, b)
    ensures KidsPlaced(Insert(n, b).children)
    decreases MaxDepth - n.depth, 2, 0
  {
    var i := FirstContaining(n.children, b);
    if i < |n.children| {
      var c := n.children[i];
      ChildPlaced(c, b);
      assert Insert(n, b).children == n.children[i := Insert(c, b)];
    }
  }

  /** Insertion into a child that contains the box keeps both the child's
      placement and the child's boxes inside its region. */
  lemma {:induction false} ChildPlaced(c: Node, b: AABB)
    requires Shape(c) && Placed(c) && Within(c) && Contains(c.region, b)
    ensures Placed(Insert(c, b)) && Within(Insert(c, b))
    decreases MaxDepth - c.depth, 4, 0
  {
    if Intersects(c.region, b) {
      InsertPlaced(c, b);
      InsertStored(c, b);
    } else {
      InsertMiss(c, b);
    }
  }

  lemma {:induction false} SplitPlaced(n: Node, objs: seq<AABB>)
    requires Shape(n) && IsLeaf(n) && n.depth < MaxDepth
    requires forall x | x in objs :: Intersects(n.region, x)
    ensures Placed(Split(n, objs))
    decreases MaxDepth - n.depth, 1, 0
  {
    var kids := Subdivide(n.region, n.depth);
    LeavesPlaced(kids);
    DistributePlaced(kids, objs, n.depth);
    SplitStored(n, objs);
    var r := Split(n, objs);
    assert r.children == Distribute(kids, objs, n.depth).kids;
    assert forall x | x in Stored(r) :: x in objs;
  }

  lemma LeavesPlaced(kids: seq<Node>)
    requires forall i :: 0 <= i < |kids| ==> kids[i].objects == [] && kids[i].children == []
    ensures KidsPlaced(kids)
  {
    forall i | 0 <= i < |kids|
      ensures Within(kids[i]) && Placed(kids[i])
    {
      assert Stored(kids[i]) == multiset{};
    }
  }

  lemma {:induction false} DistributePlaced(kids: seq<Node>, objs: seq<AABB>, d: nat)
    requires d < MaxDepth && KidsShape(kids, d + 1)
    requires KidsPlaced(kids)
    ensures KidsPlaced(Distribute(kids, objs, d).kids)
    decreases MaxDepth - d, 0, |objs|
  {
    if |objs| > 0 {
      var pre := objs[..|objs| - 1];
      DistributePlaced(kids, pre, d);
      PlacePlaced(Distribute(kids, pre, d), objs[|objs| - 1], d);
    }
  }

  lemma {:induction false} PlacePlaced(s: Spread, o: AABB, d: nat)
    requires d < MaxDepth && KidsShape(s.kids, d + 1)
    requires KidsPlaced(s.kids)
    ensures KidsPlaced(Place(s, o, d).kids)
    decreases MaxDepth - d, 0, 0
  {
    var i := FirstContaining(s.kids, o);
    if i < |s.kids| {
      var c := s.kids[i];
      ChildPlaced(c, o);
      assert Place(s, o, d).kids == s.kids[i := Insert(c, o)];
    }
  }

  // ---------------------------------------------------------------------
  // Query

  lemma {:induction false} FilterCount(objs: seq<AABB>, range: AABB, x: AABB)
    ensures multiset(Filter(objs, range))[x] == if Intersects(x, range) then multiset(objs)[x] else 0
  {
    if |objs| > 0 {
      var pre := objs[..|objs| - 1];
      FilterCount(pre, range, x);
      assert objs == pre + [objs[|objs| - 1]];
    }
  }

  /** Query is sound and complete for the placement invariant: it returns
      each stored box that meets the range as often as it is stored, and
      nothing else, as long as the node's region meets the range. */
  lemma {:induction false} QueryCount(n: Node, range: AABB, x: AABB)
    requires Placed(n)
    ensures multiset(Query(n, range))[x] ==
            if Intersects(n.region, range) && Intersects(x, range) then Stored(n)[x] else 0
    decreases n, 1
  {
    if Intersects(n.region, range) {
      FilterCount(n.objects, range, x);
      QueryKidsCount(n.children, range, x, |n.children|);
    }
  }

  lemma {:induction false} QueryKidsCount(kids: seq<Node>, range: AABB, x: AABB, k: nat)
    requires k <= |kids|
    requires KidsPlaced(kids)
    ensures multiset(QueryKids(kids, range, k))[x] ==
            if Intersects(x, range) then StoredKids(kids, k)[x] else 0
    decreases kids, 0, k
  {
    if k > 0 {
      var c := kids[k - 1];
      QueryKidsCount(kids, range, x, k - 1);
      QueryCount(c, range, x);
      if Intersects(x, range) && x in Stored(c) {
        ContainedIntersects(c.region, x, range);
      }
    }
  }

  /** Querying with the root's own (non-empty) region returns every stored box. */
  lemma QueryWhole(n: Node)
    requires Placed(n) && Wf(n.region)
    ensures multiset(Query(n, n.region)) == Stored(n)
  {
    forall x
      ensures multiset(Query(n, n.region))[x] == Stored(n)[x]
    {
      QueryCount(n, n.region, x);
      if x in Stored(n) {
        IntersectsSymmetric(n.region, x);
      }
    }
  }

  /** A range that misses the root's region finds nothing. */
  lemma QueryDisjoint(n: Node, range: AABB)
    requires !Intersects(n.region, range)
    ensures Query(n, range) == []
  {
  }

  /** Every box that query returns is a stored box meeting the range. */
  lemma QuerySound(n: Node, range: AABB)
    requires Placed(n)
    ensures forall x | x in Query(n, range) :: x in Stored(n) && Intersects(x, range)
  {
    forall x | x in Query(n, range)
      ensures x in Stored(n) && Intersects(x, range)
    {
      assert x in multiset(Query(n, range));
      QueryCount(n, range, x);
    }
  }

  // ---------------------------------------------------------------------
  // Split rule

  /** After a split the boxes kept at the node are exactly, in order, the
      held boxes that no child contains. */
  lemma {:induction false} DistributeRest(kids: seq<Node>, objs: seq<AABB>, d: nat)
    requires d < MaxDepth && KidsShape(kids, d + 1)
    ensures Distribute(kids, objs, d).rest == Straddling(kids, objs)
    decreases |objs|
  {
    if |objs| > 0 {
      var pre := objs[..|objs| - 1];
      DistributeRest(kids, pre, d);
      var s := Distribute(kids, pre, d);
      FirstContainingRegions(s.kids, kids, objs[|objs| - 1]);
    }
  }

  /** The boxes of `objs` that no child region contains, in order. */
  function Straddling(kids: seq<Node>, objs: seq<AABB>): (r: seq<AABB>)
    ensures forall x | x in r :: x in objs && (forall i :: 0 <= i < |kids| ==> !Contains(kids[i].region, x))
  {
    if |objs| == 0 then []
    else
      var o := objs[|objs| - 1];
      Straddling(kids, objs[..|objs| - 1]) + (if FirstContaining(kids, o) < |kids| then [] else [o])
  }

  /** FirstContaining only looks at regions. */
  lemma {:induction false} FirstContainingRegions(a: seq<Node>, b: seq<Node>, o: AABB)
    requires |a| == |b| && forall i :: 0 <= i < |a| ==> a[i].region == b[i].region
    ensures FirstContaining(a, o) == FirstContaining(b, o)
  {
    if |a| > 0 && !Contains(a[0].region, o) {
      FirstContainingRegions(a[1..], b[1..], o);
    }
  }

  /** A leaf holding at most MaxObjects boxes, or sitting at MaxDepth,
      stays a leaf: it only appends the box. */
  lemma NoSplit(n: Node, b: AABB)
    requires Shape(n) && IsLeaf(n) && Intersects(n.region, b)
    requires |n.objects| < MaxObjects || n.depth == MaxDepth
    ensures Insert(n, b) == n.(objects := n.objects + [b])
  {
  }

  /** The fifth box a leaf receives above MaxDepth splits it into the eight octants. */
  lemma SplitShape(n: Node, b: AABB)
    requires Shape(n) && IsLeaf(n) && Intersects(n.region, b)
    requires |n.objects| == MaxObjects && n.depth < MaxDepth
    ensures |Insert(n, b).children| == 8
    ensures forall i :: 0 <= i < 8 ==> Insert(n, b).children[i].region == Octant(n.region, i)
    ensures Insert(n, b).objects == Straddling(Subdivide(n.region, n.depth), n.objects + [b])
  {
    DistributeRest(Subdivide(n.region, n.depth), n.objects + [b], n.depth);
  }

  /** At an internal node a box goes to the first child containing it, or
      stays in the node's own list. */
  lemma InternalRule(n: Node, b: AABB)
    requires Shape(n) && !IsLeaf(n) && Intersects(n.region, b)
    ensures var i := FirstContaining(n.children, b);
            if i < 8 then Insert(n, b) == n.(children := n.children[i := Insert(n.children[i], b)])
            else Insert(n, b) == n.(objects := n.objects + [b])
  {
  }

  // ---------------------------------------------------------------------
  // The procedures

  /** `OctreeNode::subdivide`, allocating the eight children in a loop. */
  method SubdivideNode(r: AABB, depth: nat) returns (kids: seq<Node>)
    ensures kids == Subdivide(r, depth)
  {
    kids := [];
    for i := 0 to 8
      invariant kids == Subdivide(r, depth)[..i]
    {
      kids := kids + [Leaf(Octant(r, i), depth + 1)];
    }
  }

  /** The child-scan `for (auto &child : children) if (child->contains(b))`. */
  method FindChild(kids: seq<Node>, b: AABB) returns (i: nat)
    ensures i == FirstContaining(kids, b)
  {
    i := 0;
    while i < |kids| && !Contains(kids[i].region, b)
      invariant i <= |kids|
      invariant forall j :: 0 <= j < i ==> !Contains(kids[j].region, b)
    {
      i := i + 1;
    }
  }

  /** `OctreeNode::insert`. */
  method InsertNode(n: Node, b: AABB) returns (r: Node)
    requires Shape(n)
    ensures r == Insert(n, b)
    decreases MaxDepth - n.depth, 2
  {
    if !Intersects(n.region, b) {
      return n;
    }
    if IsLeaf(n) {
      var objs := n.objects + [b];
      if |objs| > MaxObjects && n.depth < MaxDepth {
        r := SplitNode(n, objs);
      } else {
        r := n.(objects := objs);
      }
      return;
    }
    var i := FindChild(n.children, b);
    if i < |n.children| {
      var c := InsertNode(n.children[i], b);
      r := n.(children := n.children[i := c]);
    } else {
      r := n.(objects := n.objects + [b]);
    }
  }

  /** The split branch of `insert`: subdivide, then move each held box to
      the first child containing it, collecting the others. */
  method SplitNode(n: Node, objs: seq<AABB>) returns (r: Node)
    requires Shape(n) && IsLeaf(n) && n.depth < MaxDepth
    ensures r == Split(n, objs)
    decreases MaxDepth - n.depth, 1
  {
    var start := SubdivideNode(n.region, n.depth);
    var kids := start;
    var remaining: seq<AABB> := [];
    for k := 0 to |objs|
      invariant Spread(kids, remaining) == Distribute(start, objs[..k], n.depth)
    {
      assert objs[..k + 1][..k] == objs[..k];
      var i := FindChild(kids, objs[k]);
      if i < |kids| {
        var c := InsertNode(kids[i], objs[k]);
        kids := kids[i := c];
      } else {
        remaining := remaining + [objs[k]];
      }
    }
    assert objs[..|objs|] == objs;
    r := n.(objects := remaining, children := kids);
  }

  /** `OctreeNode::query`, appending matches in list order, then the children's. */
  method QueryNode(n: Node, range: AABB) returns (result: seq<AABB>)
    ensures result == Query(n, range)
    decreases n
  {
    result := [];
    if !Intersects(n.region, range) {
      return;
    }
    for k := 0 to |n.objects|
      invariant result == Filter(n.objects[..k], range)
    {
      assert n.objects[..k + 1][..k] == n.objects[..k];
      if Intersects(n.objects[k], range) {
        result := result + [n.objects[k]];
      }
    }
    assert n.objects[..|n.objects|] == n.objects;
    var own := result;
    for k := 0 to |n.children|
      invariant result == own + QueryKids(n.children, range, k)
    {
      var sub := QueryNode(n.children[k], range);
      result := result + sub;
    }
  }

  // ---------------------------------------------------------------------
  // Boxes derived from the root

  /** `Octree::getGlobalAABB`: the root region moved by p, keeping the
      root's tag (unlike `AABB::getGlobalAABB`). */
  function RootGlobal(root: AABB, p: Vec3): (r: AABB)
    ensures r.where == root.where
    ensures Size(r) == Size(root) && Sub(r.min, root.min) == p
  {
    AABB(Add(root.min, p), Add(root.max, p), root.where)
  }

  /** `Octree::getDeltaAABB`: the root region at p, stretched on each axis
      by the predicted displacement d, downwards when d is negative on that
      axis and upwards otherwise. */
  function DeltaAABB(root: AABB, p: Vec3, d: Vec3): AABB
  {
    var g := RootGlobal(root, p);
    AABB(Vec3(if d.x < 0.0 then g.min.x + d.x else g.min.x,
              if d.y < 0.0 then g.min.y + d.y else g.min.y,
              if d.z < 0.0 then g.min.z + d.z else g.min.z),
         Vec3(if d.x < 0.0 then g.max.x else g.max.x + d.x,
              if d.y < 0.0 then g.max.y else g.max.y + d.y,
              if d.z < 0.0 then g.max.z else g.max.z + d.z),
         g.where)
  }

  /** The swept box is the hull of the box before and after the move: it
      contains both, keeps the root's tag, and is no larger than that. */
  lemma DeltaHull(root: AABB, p: Vec3, d: Vec3)
    ensures var s := DeltaAABB(root, p, d);
            var g0 := RootGlobal(root, p);
            var g1 := RootGlobal(root, Add(p, d));
            Contains(s, g0) && Contains(s, g1) && s.where == root.where &&
            s.min == Vec3(Min(g0.min.x, g1.min.x), Min(g0.min.y, g1.min.y), Min(g0.min.z, g1.min.z)) &&
            s.max == Vec3(Max(g0.max.x, g1.max.x), Max(g0.max.y, g1.max.y), Max(g0.max.z, g1.max.z))
  {
  }

  // ---------------------------------------------------------------------
  // The tree object

  /** `Octree`: a root that is absent when the constructor's region had a
      NaN min.x (modelled as `None`). */
  class Octree {
    var root: Option<Node>

    ghost predicate Valid()
      reads this
    {
      root.Some? ==> Shape(root.value) && Placed(root.value) && root.value.depth == 0
    }

    constructor (region: Option<AABB>)
      ensures root == if region.None? then None else Some(Leaf(region.value, 0))
      ensures Valid()
    {
      root := if region.None? then None else Some(Leaf(region.value, 0));
    }

    /** `Octree::insert`: fails the root assertion on a missing root. A
        well-formed box meeting the root region is then stored exactly once. */
    method InsertBox(b: AABB) returns (res: Result<()>)
      requires Valid()
      modifies this
      ensures Valid()
      ensures old(root).None? ==> root == None && res == Err(NoRoot)
      ensures old(root).Some? ==> res == Ok(()) && root == Some(Insert(old(root).value, b))
      ensures old(root).Some? && Wf(b) && AllWf(Stored(old(root).value)) ==>
              Stored(root.value) == Stored(old(root).value) +
                (if Intersects(old(root).value.region, b) then multiset{b} else multiset{})
    {
      if root.None? {
        return Err(NoRoot);
      }
      var n := root.value;
      var r := InsertNode(n, b);
      if Intersects(n.region, b) {
        InsertPlaced(n, b);
      }
      if Wf(b) && AllWf(Stored(n)) {
        InsertCount(n, b);
      }
      root := Some(r);
      res := Ok(());
    }

    /** `Octree::query`: fails on a missing root; otherwise returns each
        stored box meeting the range, as often as it is stored. */
    method QueryRange(range: AABB) returns (res: Result<seq<AABB>>)
      requires Valid()
      ensures root.None? ==> res == Err(NoRoot)
      ensures root.Some? ==> res.Ok? && res.value == Query(root.value, range)
      ensures root.Some? ==> forall x :: (multiset(res.value)[x] ==
        if Intersects(root.value.region, range) && Intersects(x, range) then Stored(root.value)[x] else 0)
    {
      if root.None? {
        return Err(NoRoot);
      }
      var found := QueryNode(root.value, range);
      forall x
        ensures multiset(found)[x] ==
          if Intersects(root.value.region, range) && Intersects(x, range) then Stored(root.value)[x] else 0
      {
        QueryCount(root.value, range, x);
      }
      res := Ok(found);
    }

    function GlobalAABB(p: Vec3): (r: Result<AABB>)
      reads this
      ensures root.None? <==> r == Err(NoRoot)
      ensures root.Some? ==> r == Ok(RootGlobal(root.value.region, p))
    {
      if root.None? then Err(NoRoot) else Ok(RootGlobal(root.value.region, p))
    }

    function DeltaBox(p: Vec3, d: Vec3): (r: Result<AABB>)
      reads this
      ensures root.None? <==> r == Err(NoRoot)
      ensures root.Some? ==>
                r.Ok? && Contains(r.value, RootGlobal(root.value.region, p)) &&
                Contains(r.value, RootGlobal(root.value.region, Add(p, d)))
    {
      if root.None? then Err(NoRoot)
      else
        DeltaHull(root.value.region, p, d);
        Ok(DeltaAABB(root.value.region, p, d))
    }
  }
}
