/** What miniSubdivide's identity maps guarantee about the new scene: one
    new instance per input slot, sharing of objects and meshes carried over
    exactly, every new mesh the subdivision of its old mesh, and instance
    reuse limited to the first slot that placed an object. */
module SubdivideFacts {
  import opened Wrappers
  import opened Stream
  import opened SceneGraph
  import opened VertexKeys
  import opened SubdivideMesh
  import opened SubdivideScene

  /** `b` keeps every entry of `a`. */
  ghost predicate MapExtends(a: map<nat, nat>, b: map<nat, nat>) {
    forall x :: x in a ==> x in b && b[x] == a[x]
  }

  /** The mesh side of the new graph: one fresh copy of `material` per new
      mesh, and the mesh map an injection from old meshes to their
      subdivisions. */
  ghost predicate MeshesOk(b: Built, g: Graph, make: (Mesh, nat) --> Mesh, material: Material)
    requires CanMake(make)
  {
    && |b.graph.materials| == |b.graph.meshes|
    && (forall h :: 0 <= h < |b.graph.materials| ==> b.graph.materials[h] == material)
    && (forall h :: 0 <= h < |b.graph.meshes| ==> b.graph.meshes[h].material == h)
    && (forall m :: m in b.meshMap ==>
          && MeshSubdividable(g, Some(m)) && b.meshMap[m] < |b.graph.meshes|
          && b.graph.meshes[b.meshMap[m]] == make(g.meshes[m], b.meshMap[m]))
    && (forall m1, m2 :: m1 in b.meshMap && m2 in b.meshMap && b.meshMap[m1] == b.meshMap[m2] ==> m1 == m2)
  }

  /** The parts of the state the mesh loop does not touch. */
  ghost predicate SameButMeshes(a: Built, b: Built) {
    && a.slots == b.slots && a.instMap == b.instMap && a.objMap == b.objMap
    && a.graph.textures == b.graph.textures && a.graph.objects == b.graph.objects
    && a.graph.instances == b.graph.instances
  }

  /** One mesh slot keeps every old entry of the mesh map and leaves the
      slot's mesh mapped to the returned new mesh. */
  lemma AddMeshShape(b: Built, g: Graph, slot: Option<nat>, make: (Mesh, nat) --> Mesh, material: Material)
    requires CanMake(make) && MeshSubdividable(g, slot)
    ensures var (r, h) := AddMesh(b, g, slot, make, material);
            && SameButMeshes(b, r) && MapExtends(b.meshMap, r.meshMap) && |b.graph.meshes| <= |r.graph.meshes|
            && slot.value in r.meshMap && h == r.meshMap[slot.value]
  {
  }

  lemma AddMeshKeepsOk(b: Built, g: Graph, slot: Option<nat>, make: (Mesh, nat) --> Mesh,
                       material: Material)
    requires CanMake(make) && MeshesOk(b, g, make, material) && MeshSubdividable(g, slot)
    ensures MeshesOk(AddMesh(b, g, slot, make, material).0, g, make, material)
  {
    var (r, h) := AddMesh(b, g, slot, make, material);
    if slot.value !in b.meshMap {
      forall x | 0 <= x < |r.graph.meshes|
        ensures r.graph.meshes[x].material == x
      {
        if x < |b.graph.meshes| {
          assert r.graph.meshes[x] == b.graph.meshes[x];
        }
      }
      forall m | m in r.meshMap
        ensures && MeshSubdividable(g, Some(m)) && r.meshMap[m] < |r.graph.meshes|
                && r.graph.meshes[r.meshMap[m]] == make(g.meshes[m], r.meshMap[m])
      {
        if m != slot.value {
          assert r.graph.meshes[r.meshMap[m]] == b.graph.meshes[b.meshMap[m]];
        }
      }
    }
  }

  /** The mesh loop of one object leaves the other parts of the state
      alone, keeps the old mesh map entries, and gives each slot the new
      mesh its old mesh maps to. */
  lemma {:induction false} AddMeshesShape(b: Built, g: Graph, slots: seq<Option<nat>>, p: nat,
                                          make: (Mesh, nat) --> Mesh, material: Material)
    requires CanMake(make) && p <= |slots| && forall q :: 0 <= q < |slots| ==> MeshSubdividable(g, slots[q])
    ensures var (r, hs) := AddMeshes(b, g, slots, p, make, material);
            && SameButMeshes(b, r) && MapExtends(b.meshMap, r.meshMap) && |b.graph.meshes| <= |r.graph.meshes|
            && (forall q :: 0 <= q < p ==> slots[q].value in r.meshMap && hs[q] == Some(r.meshMap[slots[q].value]))
    decreases p
  {
    if p > 0 {
      AddMeshesShape(b, g, slots, p - 1, make, material);
      var (b1, hs) := AddMeshes(b, g, slots, p - 1, make, material);
      AddMeshShape(b1, g, slots[p - 1], make, material);
      var (r, h) := AddMesh(b1, g, slots[p - 1], make, material);
      var hs' := hs + [Some(h)];
      forall q | 0 <= q < p
        ensures slots[q].value in r.meshMap && hs'[q] == Some(r.meshMap[slots[q].value])
      {
        if q < p - 1 {
          assert hs'[q] == hs[q];
        }
      }
    }
  }

  lemma {:induction false} AddMeshesKeepOk(b: Built, g: Graph, slots: seq<Option<nat>>, p: nat,
                                           make: (Mesh, nat) --> Mesh, material: Material)
    requires CanMake(make) && MeshesOk(b, g, make, material)
    requires p <= |slots| && forall q :: 0 <= q < |slots| ==> MeshSubdividable(g, slots[q])
    ensures MeshesOk(AddMeshes(b, g, slots, p, make, material).0, g, make, material)
    decreases p
  {
    if p > 0 {
      AddMeshesKeepOk(b, g, slots, p - 1, make, material);
      var (b1, hs) := AddMeshes(b, g, slots, p - 1, make, material);
      AddMeshKeepsOk(b1, g, slots[p - 1], make, material);
      assert AddMeshes(b, g, slots, p, make, material).0 == AddMesh(b1, g, slots[p - 1], make, material).0;
    }
  }

  // ---------------------------------------------------------------------
  // Objects, instances and the first slot of each object
  // ---------------------------------------------------------------------

  /** Slot `k` is the first to place its object: only such a slot takes the
      source's full path, and only there is the instance recorded. */
  ghost predicate First(s: Scene, k: nat)
    requires Subdividable(s) && k < |s.instances|
  {
    forall k' :: 0 <= k' < k ==> ObjectOf(s, k') != ObjectOf(s, k)
  }

  /** The slot whose new instance slot `k` receives: the first slot of the
      same instance when that slot was also the first to place the object,
      else `k` itself. */
  ghost function Origin(s: Scene, k: nat): (o: nat)
    requires Subdividable(s) && k < |s.instances|
    ensures o <= k
  {
    if exists k' :: 0 <= k' < k && First(s, k') && s.instances[k'] == s.instances[k] then
      var k' :| 0 <= k' < k && First(s, k') && s.instances[k'] == s.instances[k];
      k'
    else k
  }

  lemma OriginOfFirst(s: Scene, k: nat)
    requires Subdividable(s) && k < |s.instances| && First(s, k)
    ensures Origin(s, k) == k
  {
    forall k' | 0 <= k' < k
      ensures s.instances[k'] != s.instances[k]
    {
      assert ObjectOf(s, k') != ObjectOf(s, k);
    }
  }

  lemma OriginOfRepeat(s: Scene, k0: nat, k: nat)
    requires Subdividable(s) && k0 < k < |s.instances| && First(s, k0) && s.instances[k0] == s.instances[k]
    ensures Origin(s, k) == k0
  {
    var k' :| 0 <= k' < k && First(s, k') && s.instances[k'] == s.instances[k];
    assert ObjectOf(s, k') == ObjectOf(s, k0);
  }

  ghost predicate NewObjectOk(b: Built, g: Graph, o: nat)
    requires ObjectSubdividable(g, o) && o in b.objMap && b.objMap[o] < |b.graph.objects|
  {
    var was, nw := g.objects[o].meshes, b.graph.objects[b.objMap[o]].meshes;
    && |nw| == |was|
    && forall p :: 0 <= p < |was| ==> was[p].value in b.meshMap && nw[p] == Some(b.meshMap[was[p].value])
  }

  /** The object map is an injection from old objects to new objects made
      of the new meshes of their mesh slots. */
  ghost predicate ObjectsOk(b: Built, g: Graph) {
    && (forall o :: o in b.objMap ==>
          ObjectSubdividable(g, o) && b.objMap[o] < |b.graph.objects| && NewObjectOk(b, g, o))
    && (forall o1, o2 :: o1 in b.objMap && o2 in b.objMap && b.objMap[o1] == b.objMap[o2] ==> o1 == o2)
  }

  /** Every handle of the new graph points into its arena, the graph holds
      no texture, and every new instance has the default transform. */
  ghost predicate ArenaOk(b: Built, xfm: Element) {
    && b.graph.textures == []
    && (forall h :: 0 <= h < |b.graph.objects| ==> ObjectOk(b.graph, b.graph.objects[h]))
    && (forall h :: 0 <= h < |b.graph.instances| ==>
          b.graph.instances[h].obj < |b.graph.objects| && b.graph.instances[h].xfm == xfm)
  }

  /** After the first `n` slots: one new instance per slot, placing the new
      object of the slot's old object. */
  ghost predicate Placed(b: Built, s: Scene, n: nat)
    requires Subdividable(s) && n <= |s.instances|
  {
    && |b.slots| == n
    && (forall k :: 0 <= k < n ==>
          && b.slots[k].Some? && b.slots[k].value < |b.graph.instances| && ObjectOf(s, k) in b.objMap
          && b.graph.instances[b.slots[k].value].obj == b.objMap[ObjectOf(s, k)])
  }

  /** The object map holds only objects placed by the first `n` slots. */
  ghost predicate ObjectsMet(b: Built, s: Scene, n: nat)
    requires Subdividable(s) && n <= |s.instances|
  {
    forall o :: o in b.objMap ==> exists k :: 0 <= k < n && ObjectOf(s, k) == o
  }

  /** Some first slot among the first `n` placed instance `ih` and got its
      recorded new instance. */
  ghost predicate RecordedAt(b: Built, s: Scene, n: nat, ih: nat)
    requires Subdividable(s) && n <= |s.instances| && |b.slots| == n && ih in b.instMap
  {
    exists k :: 0 <= k < n && First(s, k) && s.instances[k] == Some(ih) && b.slots[k] == Some(b.instMap[ih])
  }

  /** The instance map holds exactly the instances of the first slots of
      their objects, each mapped to that slot's new instance. */
  ghost predicate InstancesMet(b: Built, s: Scene, n: nat)
    requires Subdividable(s) && n <= |s.instances| && |b.slots| == n
  {
    && (forall ih :: ih in b.instMap ==> RecordedAt(b, s, n, ih))
    && (forall k :: 0 <= k < n && First(s, k) ==> s.instances[k].value in b.instMap)
  }

  /** Two slots share their new instance exactly when they have the same
      origin. */
  ghost predicate Shared(b: Built, s: Scene, n: nat)
    requires Subdividable(s) && n <= |s.instances| && |b.slots| == n
  {
    forall k1, k2 :: 0 <= k1 < n && 0 <= k2 < n ==> (b.slots[k1] == b.slots[k2] <==> Origin(s, k1) == Origin(s, k2))
  }

  ghost predicate SlotsOk(b: Built, s: Scene, n: nat)
    requires Subdividable(s) && n <= |s.instances|
  {
    Placed(b, s, n) && ObjectsMet(b, s, n) && InstancesMet(b, s, n) && Shared(b, s, n)
  }

  // ---------------------------------------------------------------------
  // One instance slot
  // ---------------------------------------------------------------------

  lemma InstanceKeepsMeshesOk(b: Built, g: Graph, ih: nat, make: (Mesh, nat) --> Mesh, material: Material,
                              xfm: Element)
    requires CanMake(make) && MeshesOk(b, g, make, material) && ih < |g.instances| && ObjectSubdividable(g, g.instances[ih].obj)
    ensures MeshesOk(AddInstance(b, g, ih, make, material, xfm), g, make, material)
  {
    var o := g.instances[ih].obj;
    if ih !in b.instMap && o !in b.objMap {
      AddMeshesKeepOk(b, g, g.objects[o].meshes, |g.objects[o].meshes|, make, material);
    }
  }

  /** Recording a new object made of the new meshes of `o`'s slots keeps
      the object map an injection to faithful new objects. */
  lemma ObjectsOkAfterNewObject(b: Built, r: Built, g: Graph, o: nat, hs: seq<Option<nat>>)
    requires ObjectsOk(b, g) && ObjectSubdividable(g, o) && o !in b.objMap
    requires MapExtends(b.meshMap, r.meshMap)
    requires r.objMap == b.objMap[o := |b.graph.objects|] && r.graph.objects == b.graph.objects + [Object(hs)]
    requires |hs| == |g.objects[o].meshes|
    requires forall q :: 0 <= q < |hs| ==>
               g.objects[o].meshes[q].value in r.meshMap && hs[q] == Some(r.meshMap[g.objects[o].meshes[q].value])
    ensures ObjectsOk(r, g)
  {
    forall o' | o' in r.objMap
      ensures ObjectSubdividable(g, o') && r.objMap[o'] < |r.graph.objects| && NewObjectOk(r, g, o')
    {
      if o' != o {
        assert r.graph.objects[r.objMap[o']] == b.graph.objects[b.objMap[o']];
      }
    }
  }

  lemma InstanceKeepsObjectsOk(b: Built, g: Graph, ih: nat, make: (Mesh, nat) --> Mesh,
                               material: Material, xfm: Element)
    requires CanMake(make) && ObjectsOk(b, g) && ih < |g.instances| && ObjectSubdividable(g, g.instances[ih].obj)
    ensures ObjectsOk(AddInstance(b, g, ih, make, material, xfm), g)
  {
    var o := g.instances[ih].obj;
    if ih !in b.instMap && o !in b.objMap {
      var slots := g.objects[o].meshes;
      AddMeshesShape(b, g, slots, |slots|, make, material);
      var (b1, hs) := AddMeshes(b, g, slots, |slots|, make, material);
      ObjectsOkAfterNewObject(b, AddInstance(b, g, ih, make, material, xfm), g, o, hs);
    }
  }

  /** The new graph stays closed when an instance of a known new object is
      added. */
  lemma ArenaOkAfterNewInstance(b: Built, r: Built, xfm: Element, obj: nat)
    requires ArenaOk(b, xfm) && obj < |b.graph.objects|
    requires r.graph == b.graph.(instances := b.graph.instances + [Instance(xfm, obj)])
    ensures ArenaOk(r, xfm)
  {
    forall h | 0 <= h < |r.graph.instances|
      ensures r.graph.instances[h].obj < |r.graph.objects| && r.graph.instances[h].xfm == xfm
    {
      if h < |b.graph.instances| {
        assert r.graph.instances[h] == b.graph.instances[h];
      }
    }
  }

  /** The same when a new object whose slots hold meshes of the graph is
      added together with an instance of it. */
  lemma ArenaOkAfterNewObject(b: Built, b1: Built, r: Built, xfm: Element, hs: seq<Option<nat>>)
    requires ArenaOk(b, xfm) && b1.graph.textures == b.graph.textures
    requires b1.graph.objects == b.graph.objects && b1.graph.instances == b.graph.instances
    requires |b.graph.meshes| <= |b1.graph.meshes|
    requires forall q :: 0 <= q < |hs| ==> hs[q].Some? && hs[q].value < |b1.graph.meshes|
    requires r.graph == b1.graph.(objects := b1.graph.objects + [Object(hs)],
                                  instances := b1.graph.instances + [Instance(xfm, |b1.graph.objects|)])
    ensures ArenaOk(r, xfm)
  {
    forall h | 0 <= h < |r.graph.objects|
      ensures ObjectOk(r.graph, r.graph.objects[h])
    {
      if h < |b.graph.objects| {
        assert r.graph.objects[h] == b.graph.objects[h];
      }
    }
    forall h | 0 <= h < |r.graph.instances|
      ensures r.graph.instances[h].obj < |r.graph.objects| && r.graph.instances[h].xfm == xfm
    {
      if h < |b.graph.instances| {
        assert r.graph.instances[h] == b.graph.instances[h];
      }
    }
  }

  lemma InstanceKeepsArenaOk(b: Built, g: Graph, ih: nat, make: (Mesh, nat) --> Mesh,
                             material: Material, xfm: Element)
    requires CanMake(make) && ArenaOk(b, xfm) && MeshesOk(b, g, make, material) && ObjectsOk(b, g)
    requires ih < |g.instances| && ObjectSubdividable(g, g.instances[ih].obj)
    ensures ArenaOk(AddInstance(b, g, ih, make, material, xfm), xfm)
  {
    var o := g.instances[ih].obj;
    var r := AddInstance(b, g, ih, make, material, xfm);
    if ih !in b.instMap {
      if o in b.objMap {
        ArenaOkAfterNewInstance(b, r, xfm, b.objMap[o]);
      } else {
        var slots := g.objects[o].meshes;
        AddMeshesShape(b, g, slots, |slots|, make, material);
        AddMeshesKeepOk(b, g, slots, |slots|, make, material);
        var (b1, hs) := AddMeshes(b, g, slots, |slots|, make, material);
        ArenaOkAfterNewObject(b, b1, r, xfm, hs);
      }
    }
  }

  /** The slots of the first `n` instances keep their new instances. */
  ghost predicate SlotsExtend(b: Built, r: Built, n: nat) {
    |b.slots| == n && |r.slots| == n + 1 && forall k :: 0 <= k < n ==> r.slots[k] == b.slots[k]
  }

  lemma ObjectsMetGrows(b: Built, r: Built, s: Scene, n: nat)
    requires Subdividable(s) && n < |s.instances| && ObjectsMet(b, s, n)
    requires forall o :: o in r.objMap && o != ObjectOf(s, n) ==> o in b.objMap
    ensures ObjectsMet(r, s, n + 1)
  {
    forall o | o in r.objMap ensures exists k :: 0 <= k < n + 1 && ObjectOf(s, k) == o {
      if o != ObjectOf(s, n) {
        var k :| 0 <= k < n && ObjectOf(s, k) == o;
      }
    }
  }

  /** The first slot that recorded instance `ih`. */
  lemma RecordedSlot(b: Built, s: Scene, n: nat, ih: nat) returns (k0: nat)
    requires Subdividable(s) && n <= |s.instances| && |b.slots| == n && ih in b.instMap && RecordedAt(b, s, n, ih)
    ensures k0 < n && First(s, k0) && s.instances[k0] == Some(ih) && b.slots[k0] == Some(b.instMap[ih])
  {
    k0 :| 0 <= k0 < n && First(s, k0) && s.instances[k0] == Some(ih) && b.slots[k0] == Some(b.instMap[ih]);
  }

  /** A slot whose instance was recorded gets the recorded new instance,
      the one of the first slot of that instance. */
  lemma SlotsOkAfterReuse(b: Built, r: Built, s: Scene, n: nat)
    requires Subdividable(s) && n < |s.instances| && SlotsOk(b, s, n) && s.instances[n].value in b.instMap
    requires r.graph.instances == b.graph.instances && r.objMap == b.objMap && r.instMap == b.instMap
    requires r.slots == b.slots + [Some(b.instMap[s.instances[n].value])]
    ensures SlotsOk(r, s, n + 1)
  {
    var k0 := RecordedSlot(b, s, n, s.instances[n].value);
    assert SlotsExtend(b, r, n);
    assert r.slots[n] == b.slots[k0];
    ReusePlaced(b, r, s, n, k0);
    ObjectsMetGrows(b, r, s, n);
    ReuseInstancesMet(b, r, s, n);
    ReuseShared(b, r, s, n, k0);
  }

  lemma ReusePlaced(b: Built, r: Built, s: Scene, n: nat, k0: nat)
    requires Subdividable(s) && k0 < n < |s.instances| && Placed(b, s, n) && SlotsExtend(b, r, n)
    requires s.instances[k0] == s.instances[n] && r.slots[n] == b.slots[k0]
    requires r.graph.instances == b.graph.instances && r.objMap == b.objMap
    ensures Placed(r, s, n + 1)
  {
    assert ObjectOf(s, n) == ObjectOf(s, k0);
  }

  /** A recorded instance stays recorded when a slot is added. */
  lemma RecordedAtGrows(b: Built, r: Built, s: Scene, n: nat, ih: nat)
    requires Subdividable(s) && n < |s.instances| && SlotsExtend(b, r, n)
    requires ih in b.instMap && RecordedAt(b, s, n, ih) && ih in r.instMap && r.instMap[ih] == b.instMap[ih]
    ensures RecordedAt(r, s, n + 1, ih)
  {
    var k :| 0 <= k < n && First(s, k) && s.instances[k] == Some(ih) && b.slots[k] == Some(b.instMap[ih]);
    assert r.slots[k] == b.slots[k];
  }

  lemma ReuseInstancesMet(b: Built, r: Built, s: Scene, n: nat)
    requires Subdividable(s) && n < |s.instances| && |b.slots| == n && InstancesMet(b, s, n) && SlotsExtend(b, r, n)
    requires s.instances[n].value in b.instMap && r.instMap == b.instMap
    ensures InstancesMet(r, s, n + 1)
  {
    forall ih | ih in r.instMap ensures RecordedAt(r, s, n + 1, ih) {
      RecordedAtGrows(b, r, s, n, ih);
    }
  }

  lemma ReuseShared(b: Built, r: Built, s: Scene, n: nat, k0: nat)
    requires Subdividable(s) && k0 < n < |s.instances| && |b.slots| == n && Shared(b, s, n) && SlotsExtend(b, r, n)
    requires First(s, k0) && s.instances[k0] == s.instances[n] && r.slots[n] == b.slots[k0]
    ensures Shared(r, s, n + 1)
  {
    OriginOfFirst(s, k0);
    OriginOfRepeat(s, k0, n);
  }

  /** A slot that takes a fresh new instance has its own origin, and the
      fresh instance is shared with no earlier slot. */
  lemma FreshShared(b: Built, r: Built, s: Scene, n: nat)
    requires Subdividable(s) && n < |s.instances| && |b.slots| == n && InstancesMet(b, s, n) && Shared(b, s, n)
    requires s.instances[n].value !in b.instMap && SlotsExtend(b, r, n)
    requires forall k :: 0 <= k < n ==> b.slots[k].Some? && b.slots[k].value < |b.graph.instances|
    requires r.slots[n] == Some(|b.graph.instances|)
    ensures Origin(s, n) == n && Shared(r, s, n + 1)
  {
    forall k' | 0 <= k' < n && First(s, k')
      ensures s.instances[k'] != s.instances[n]
    {
    }
    assert Origin(s, n) == n;
    forall k1, k2 | 0 <= k1 < n + 1 && 0 <= k2 < n + 1
      ensures r.slots[k1] == r.slots[k2] <==> Origin(s, k1) == Origin(s, k2)
    {
      if k1 < n && k2 < n {
        assert r.slots[k1] == b.slots[k1] && r.slots[k2] == b.slots[k2];
      } else if k1 < n {
        assert r.slots[k1] == b.slots[k1] && Origin(s, k1) <= k1;
      } else if k2 < n {
        assert r.slots[k2] == b.slots[k2] && Origin(s, k2) <= k2;
      }
    }
  }

  /** The fresh instance of the slot places the new object `no` of the
      slot's object. */
  lemma FreshPlaced(b: Built, r: Built, s: Scene, n: nat, xfm: Element, no: nat)
    requires Subdividable(s) && n < |s.instances| && Placed(b, s, n) && SlotsExtend(b, r, n)
    requires r.graph.instances == b.graph.instances + [Instance(xfm, no)]
    requires r.slots[n] == Some(|b.graph.instances|)
    requires ObjectOf(s, n) in r.objMap && r.objMap[ObjectOf(s, n)] == no
    requires forall k :: 0 <= k < n ==> ObjectOf(s, k) in r.objMap && r.objMap[ObjectOf(s, k)] == b.objMap[ObjectOf(s, k)]
    ensures Placed(r, s, n + 1)
  {
    forall k | 0 <= k < n ensures r.graph.instances[r.slots[k].value] == b.graph.instances[b.slots[k].value] {}
  }

  /** A slot whose object was met before gets a fresh instance of that
      object's new object. */
  lemma SlotsOkAfterNewInstance(b: Built, r: Built, s: Scene, n: nat, xfm: Element)
    requires Subdividable(s) && n < |s.instances| && SlotsOk(b, s, n)
    requires s.instances[n].value !in b.instMap && ObjectOf(s, n) in b.objMap
    requires r.graph.instances == b.graph.instances + [Instance(xfm, b.objMap[ObjectOf(s, n)])]
    requires r.objMap == b.objMap && r.instMap == b.instMap && r.slots == b.slots + [Some(|b.graph.instances|)]
    ensures SlotsOk(r, s, n + 1)
  {
    assert SlotsExtend(b, r, n);
    FreshShared(b, r, s, n);
    FreshPlaced(b, r, s, n, xfm, b.objMap[ObjectOf(s, n)]);
    ObjectsMetGrows(b, r, s, n);
    var k0 :| 0 <= k0 < n && ObjectOf(s, k0) == ObjectOf(s, n);
    assert !First(s, n);
    ReuseInstancesMetNotFirst(b, r, s, n);
  }

  lemma ReuseInstancesMetNotFirst(b: Built, r: Built, s: Scene, n: nat)
    requires Subdividable(s) && n < |s.instances| && |b.slots| == n && InstancesMet(b, s, n) && SlotsExtend(b, r, n)
    requires !First(s, n) && r.instMap == b.instMap
    ensures InstancesMet(r, s, n + 1)
  {
    forall ih | ih in r.instMap ensures RecordedAt(r, s, n + 1, ih) {
      RecordedAtGrows(b, r, s, n, ih);
    }
  }

  /** The first slot of an object gets a fresh instance of a fresh new
      object, and both are recorded. */
  lemma SlotsOkAfterNewObject(b: Built, r: Built, s: Scene, n: nat, xfm: Element, no: nat)
    requires Subdividable(s) && n < |s.instances| && SlotsOk(b, s, n)
    requires s.instances[n].value !in b.instMap && ObjectOf(s, n) !in b.objMap
    requires r.graph.instances == b.graph.instances + [Instance(xfm, no)]
    requires r.objMap == b.objMap[ObjectOf(s, n) := no]
    requires r.instMap == b.instMap[s.instances[n].value := |b.graph.instances|]
    requires r.slots == b.slots + [Some(|b.graph.instances|)]
    ensures SlotsOk(r, s, n + 1)
  {
    assert SlotsExtend(b, r, n);
    FreshShared(b, r, s, n);
    forall k | 0 <= k < n ensures ObjectOf(s, k) != ObjectOf(s, n) {}
    FreshPlaced(b, r, s, n, xfm, no);
    ObjectsMetGrows(b, r, s, n);
    assert First(s, n);
    NewInstancesMet(b, r, s, n);
  }

  lemma NewInstancesMet(b: Built, r: Built, s: Scene, n: nat)
    requires Subdividable(s) && n < |s.instances| && |b.slots| == n && InstancesMet(b, s, n) && SlotsExtend(b, r, n)
    requires First(s, n) && s.instances[n].value !in b.instMap && r.slots[n].Some?
    requires r.instMap == b.instMap[s.instances[n].value := r.slots[n].value]
    ensures InstancesMet(r, s, n + 1)
  {
    forall ih | ih in r.instMap ensures RecordedAt(r, s, n + 1, ih) {
      if ih != s.instances[n].value {
        RecordedAtGrows(b, r, s, n, ih);
      } else {
        assert s.instances[n] == Some(ih);
      }
    }
  }

  lemma InstanceKeepsSlotsOk(b: Built, s: Scene, n: nat, make: (Mesh, nat) --> Mesh, material: Material,
                             xfm: Element)
    requires CanMake(make) && Subdividable(s) && n < |s.instances| && SlotsOk(b, s, n)
    ensures SlotsOk(AddInstance(b, s.graph, s.instances[n].value, make, material, xfm), s, n + 1)
  {
    var g, ih := s.graph, s.instances[n].value;
    var r := AddInstance(b, g, ih, make, material, xfm);
    if ih in b.instMap {
      SlotsOkAfterReuse(b, r, s, n);
    } else if ObjectOf(s, n) in b.objMap {
      SlotsOkAfterNewInstance(b, r, s, n, xfm);
    } else {
      var slots := g.objects[ObjectOf(s, n)].meshes;
      AddMeshesShape(b, g, slots, |slots|, make, material);
      SlotsOkAfterNewObject(b, r, s, n, xfm, |b.graph.objects|);
    }
  }

  // ---------------------------------------------------------------------
  // The whole instance loop
  // ---------------------------------------------------------------------

  /** Every prefix of the instance loop keeps all four invariants. */
  lemma {:induction false} BuiltUpToOk(s: Scene, n: nat, make: (Mesh, nat) --> Mesh, material: Material,
                                       xfm: Element)
    requires CanMake(make) && Subdividable(s) && n <= |s.instances|
    ensures var b := BuiltUpTo(s, n, make, material, xfm);
            && MeshesOk(b, s.graph, make, material) && ObjectsOk(b, s.graph) && ArenaOk(b, xfm) && SlotsOk(b, s, n)
    decreases n
  {
    if n > 0 {
      BuiltUpToOk(s, n - 1, make, material, xfm);
      var b := BuiltUpTo(s, n - 1, make, material, xfm);
      var ih := s.instances[n - 1].value;
      InstanceKeepsMeshesOk(b, s.graph, ih, make, material, xfm);
      InstanceKeepsObjectsOk(b, s.graph, ih, make, material, xfm);
      InstanceKeepsArenaOk(b, s.graph, ih, make, material, xfm);
      InstanceKeepsSlotsOk(b, s, n - 1, make, material, xfm);
    }
  }

  /** The mesh slots of the object placed by slot `k`. */
  function SlotMeshes(s: Scene, k: nat): seq<Option<nat>>
    requires SceneOk(s) && k < |s.instances| && s.instances[k].Some?
  {
    s.graph.objects[ObjectOf(s, k)].meshes
  }

  /** The shape of what miniSubdivide builds from `s`: a well-formed
      scene without lights or textures and with one instance per input
      slot, each with the default transform. */
  ghost predicate NewSceneOk(s: Scene, r: Scene, xfm: Element) {
    && SceneOk(r) && r.graph.textures == [] && r.quadLights == [] && r.dirLights == [] && r.envMapLight.None?
    && |r.instances| == |s.instances|
    && (forall k :: 0 <= k < |r.instances| ==>
          r.instances[k].Some? && r.graph.instances[r.instances[k].value].xfm == xfm)
  }

  /** Two slots share their new instance exactly when they share their
      origin, and their new object exactly when they shared the old one. */
  ghost predicate SharingCarried(s: Scene, r: Scene, xfm: Element)
    requires Subdividable(s) && NewSceneOk(s, r, xfm)
  {
    forall k1, k2 :: 0 <= k1 < |s.instances| && 0 <= k2 < |s.instances| ==>
      && (r.instances[k1] == r.instances[k2] <==> Origin(s, k1) == Origin(s, k2))
      && (ObjectOf(r, k1) == ObjectOf(r, k2) <==> ObjectOf(s, k1) == ObjectOf(s, k2))
  }

  /** Mesh slot `p` of the new object of slot `k` holds the mesh `make`
      builds from the old mesh in that slot, and the material of that mesh
      is a copy of `material`. */
  ghost predicate MeshCarried(s: Scene, r: Scene, xfm: Element, make: (Mesh, nat) --> Mesh, material: Material,
                              k: nat, p: nat)
    requires Subdividable(s) && NewSceneOk(s, r, xfm) && CanMake(make) && k < |s.instances|
    requires p < |SlotMeshes(r, k)| && p < |SlotMeshes(s, k)|
  {
    var h, m := SlotMeshes(r, k)[p], SlotMeshes(s, k)[p];
    assert MeshSubdividable(s.graph, m);
    && h.Some? && h.value < |r.graph.meshes|
    && r.graph.meshes[h.value] == make(s.graph.meshes[m.value], h.value)
    && r.graph.materials[r.graph.meshes[h.value].material] == material
  }

  /** Each new object has as many mesh slots as the old one, each carrying
      the old mesh over. */
  ghost predicate MeshesCarried(s: Scene, r: Scene, xfm: Element, make: (Mesh, nat) --> Mesh, material: Material)
    requires Subdividable(s) && NewSceneOk(s, r, xfm) && CanMake(make)
  {
    forall k :: 0 <= k < |s.instances| ==>
      && |SlotMeshes(r, k)| == |SlotMeshes(s, k)|
      && forall p :: 0 <= p < |SlotMeshes(r, k)| ==> MeshCarried(s, r, xfm, make, material, k, p)
  }

  /** Two new mesh slots hold the same mesh exactly when the old ones did. */
  ghost predicate MeshSharingCarried(s: Scene, r: Scene, xfm: Element)
    requires Subdividable(s) && NewSceneOk(s, r, xfm)
  {
    forall k1, p1, k2, p2 :: 0 <= k1 < |s.instances| && 0 <= k2 < |s.instances|
                             && 0 <= p1 < |SlotMeshes(r, k1)| && 0 <= p2 < |SlotMeshes(r, k2)|
                             && p1 < |SlotMeshes(s, k1)| && p2 < |SlotMeshes(s, k2)| ==>
      (SlotMeshes(r, k1)[p1] == SlotMeshes(r, k2)[p2] <==> SlotMeshes(s, k1)[p1] == SlotMeshes(s, k2)[p2])
  }

  /** What miniSubdivide builds from `s`, with `make` building each new
      mesh. */
  ghost predicate Carried(s: Scene, r: Scene, make: (Mesh, nat) --> Mesh, material: Material, xfm: Element)
    requires Subdividable(s) && CanMake(make)
  {
    && NewSceneOk(s, r, xfm) && SharingCarried(s, r, xfm)
    && MeshesCarried(s, r, xfm, make, material) && MeshSharingCarried(s, r, xfm)
  }

  /** The invariants of the finished loop give the new scene its meaning. */
  lemma BuiltCarries(s: Scene, b: Built, make: (Mesh, nat) --> Mesh, material: Material, xfm: Element)
    requires Subdividable(s) && CanMake(make) && MaterialOk(EmptyGraph, material)
    requires MeshesOk(b, s.graph, make, material) && ObjectsOk(b, s.graph) && ArenaOk(b, xfm)
    requires SlotsOk(b, s, |s.instances|)
    ensures Carried(s, Scene(b.graph, b.slots, [], [], None), make, material, xfm)
  {
    var r := Scene(b.graph, b.slots, [], [], None);
    BuiltSceneOk(s, b, material, xfm);
    BuiltObjects(s, b, xfm);
    BuiltMeshes(s, b, make, material, xfm);
    BuiltMeshSharing(s, b, make, material, xfm);
  }

  lemma BuiltSceneOk(s: Scene, b: Built, material: Material, xfm: Element)
    requires Subdividable(s) && MaterialOk(EmptyGraph, material) && ArenaOk(b, xfm) && Placed(b, s, |s.instances|)
    requires |b.graph.materials| == |b.graph.meshes|
    requires forall h :: 0 <= h < |b.graph.materials| ==> b.graph.materials[h] == material
    requires forall h :: 0 <= h < |b.graph.meshes| ==> b.graph.meshes[h].material == h
    ensures NewSceneOk(s, Scene(b.graph, b.slots, [], [], None), xfm)
  {
    var r := Scene(b.graph, b.slots, [], [], None);
    forall h | 0 <= h < |r.graph.materials| ensures MaterialOk(r.graph, r.graph.materials[h]) {}
  }

  lemma BuiltObjects(s: Scene, b: Built, xfm: Element)
    requires Subdividable(s) && Placed(b, s, |s.instances|) && Shared(b, s, |s.instances|)
    requires NewSceneOk(s, Scene(b.graph, b.slots, [], [], None), xfm)
    requires forall o1, o2 :: o1 in b.objMap && o2 in b.objMap && b.objMap[o1] == b.objMap[o2] ==> o1 == o2
    ensures SharingCarried(s, Scene(b.graph, b.slots, [], [], None), xfm)
  {
    var r := Scene(b.graph, b.slots, [], [], None);
    forall k | 0 <= k < |s.instances| ensures ObjectOf(r, k) == b.objMap[ObjectOf(s, k)] {}
  }

  /** Slot `p` of the new object of slot `k` holds the new mesh of the old
      mesh in that slot. */
  lemma NewSlot(s: Scene, b: Built, xfm: Element, k: nat, p: nat)
    requires Subdividable(s) && ObjectsOk(b, s.graph) && k < |s.instances| && Placed(b, s, |s.instances|)
    requires NewSceneOk(s, Scene(b.graph, b.slots, [], [], None), xfm)
    ensures var r := Scene(b.graph, b.slots, [], [], None);
            && |SlotMeshes(r, k)| == |SlotMeshes(s, k)|
            && (p < |SlotMeshes(s, k)| ==>
                  SlotMeshes(s, k)[p].value in b.meshMap && SlotMeshes(r, k)[p] == Some(b.meshMap[SlotMeshes(s, k)[p].value]))
  {
    var r := Scene(b.graph, b.slots, [], [], None);
    assert ObjectOf(r, k) == b.objMap[ObjectOf(s, k)] && NewObjectOk(b, s.graph, ObjectOf(s, k));
  }

  lemma BuiltMeshes(s: Scene, b: Built, make: (Mesh, nat) --> Mesh, material: Material, xfm: Element)
    requires Subdividable(s) && CanMake(make) && MeshesOk(b, s.graph, make, material) && ObjectsOk(b, s.graph)
    requires Placed(b, s, |s.instances|) && NewSceneOk(s, Scene(b.graph, b.slots, [], [], None), xfm)
    ensures MeshesCarried(s, Scene(b.graph, b.slots, [], [], None), xfm, make, material)
  {
    var r := Scene(b.graph, b.slots, [], [], None);
    forall k | 0 <= k < |s.instances|
      ensures && |SlotMeshes(r, k)| == |SlotMeshes(s, k)|
              && forall p :: 0 <= p < |SlotMeshes(r, k)| ==> MeshCarried(s, r, xfm, make, material, k, p)
    {
      NewSlot(s, b, xfm, k, 0);
      forall p | 0 <= p < |SlotMeshes(r, k)| ensures MeshCarried(s, r, xfm, make, material, k, p) {
        NewSlot(s, b, xfm, k, p);
      }
    }
  }

  lemma BuiltMeshSharing(s: Scene, b: Built, make: (Mesh, nat) --> Mesh, material: Material, xfm: Element)
    requires Subdividable(s) && CanMake(make) && MeshesOk(b, s.graph, make, material) && ObjectsOk(b, s.graph)
    requires Placed(b, s, |s.instances|) && NewSceneOk(s, Scene(b.graph, b.slots, [], [], None), xfm)
    ensures MeshSharingCarried(s, Scene(b.graph, b.slots, [], [], None), xfm)
  {
    var r := Scene(b.graph, b.slots, [], [], None);
    forall k1, p1, k2, p2 | && 0 <= k1 < |s.instances| && 0 <= k2 < |s.instances|
                            && 0 <= p1 < |SlotMeshes(r, k1)| && 0 <= p2 < |SlotMeshes(r, k2)|
                            && p1 < |SlotMeshes(s, k1)| && p2 < |SlotMeshes(s, k2)|
      ensures SlotMeshes(r, k1)[p1] == SlotMeshes(r, k2)[p2] <==> SlotMeshes(s, k1)[p1] == SlotMeshes(s, k2)[p2]
    {
      NewSlot(s, b, xfm, k1, p1);
      NewSlot(s, b, xfm, k2, p2);
      assert MeshSubdividable(s.graph, SlotMeshes(s, k1)[p1]) && MeshSubdividable(s.graph, SlotMeshes(s, k2)[p2]);
    }
  }

  /** miniSubdivide's new scene, with the subdivision as the mesh builder. */
  lemma SubdivideSceneFacts(s: Scene, mid: (Element, Element) -> Element, material: Material, xfm: Element)
    requires Subdividable(s) && MaterialOk(EmptyGraph, material)
    ensures Carried(s, SubdivideSpec(s, mid, material, xfm), Subdivision(mid), material, xfm)
  {
    BuiltUpToOk(s, |s.instances|, Subdivision(mid), material, xfm);
    BuiltCarries(s, BuiltUpTo(s, |s.instances|, Subdivision(mid), material, xfm), Subdivision(mid), material, xfm);
  }
}
