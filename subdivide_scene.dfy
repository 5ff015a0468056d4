/** The scene-level core of miniSubdivide: every instance of a loaded scene
    is carried over to a new scene whose meshes are the midpoint
    subdivisions of the old ones. Three identity maps (old instance, object
    and mesh to their new counterparts) keep sharing: a node met a second
    time is not subdivided again.

    Nodes are arena handles as in `SceneGraph`. The new nodes are appended
    to the arenas of a new graph, `Material::create()` is the parameter
    `material`, the transform a bare `Instance::create(object)` gets is the
    parameter `xfm`, and the float midpoint is the parameter `mid`. */
module SubdivideScene {
  import opened Wrappers
  import opened Stream
  import opened SceneGraph
  import opened VertexKeys
  import opened SubdivideMesh

  // ---------------------------------------------------------------------
  // What the source dereferences
  // ---------------------------------------------------------------------

  /** A mesh slot the triangle loop can run on: not null, and every corner
      index inside the vertex list. */
  predicate MeshSubdividable(g: Graph, slot: Option<nat>) {
    && slot.Some? && slot.value < |g.meshes|
    && IndicesValid(g.meshes[slot.value].indices, |g.meshes[slot.value].vertices|)
  }

  predicate ObjectSubdividable(g: Graph, o: nat) {
    o < |g.objects| && forall p :: 0 <= p < |g.objects[o].meshes| ==> MeshSubdividable(g, g.objects[o].meshes[p])
  }

  /** The source dereferences every instance slot, the object of every
      instance and every mesh slot of such an object, and indexes the
      vertex list with every corner. */
  predicate Subdividable(s: Scene) {
    && SceneOk(s)
    && forall k :: 0 <= k < |s.instances| ==> s.instances[k].Some? && ObjectSubdividable(s.graph, ObjectOf(s, k))
  }

  // ---------------------------------------------------------------------
  // The specification, one node at a time
  // ---------------------------------------------------------------------

  /** The state of the instance loop: the new graph, the new instance list,
      and the source's three identity maps from old handles to new ones. */
  datatype Built = Built(graph: Graph, slots: seq<Option<nat>>, instMap: map<nat, nat>, objMap: map<nat, nat>,
                         meshMap: map<nat, nat>)

  /** The subdivision of mesh `m`, under material handle `material`: only
      the new vertices and triangles, no normals and no texture
      coordinates. */
  function NewMesh(m: Mesh, mid: (Element, Element) -> Element, material: nat): Mesh
    requires IndicesValid(m.indices, |m.vertices|)
  {
    var sub := Subdivided(KeyString, m.vertices, m.indices, mid);
    Mesh(sub.indices, sub.vertices, [], [], material)
  }

  /** `make` builds a new mesh from an old one and the handle of its new
      material: it is defined wherever the triangle loop can run, and the
      mesh it builds uses that material. */
  ghost predicate CanMake(make: (Mesh, nat) --> Mesh) {
    forall m: Mesh, h: nat :: IndicesValid(m.indices, |m.vertices|) ==> make.requires(m, h) && make(m, h).material == h
  }

  /** The new mesh of miniSubdivide, as a mesh builder. */
  function Subdivision(mid: (Element, Element) -> Element): (make: (Mesh, nat) --> Mesh)
    ensures CanMake(make)
  {
    (m: Mesh, h: nat) requires IndicesValid(m.indices, |m.vertices|) => NewMesh(m, mid, h)
  }

  /** One mesh slot of a new object: the mesh made for it before, or its
      subdivision with a fresh material. */
  function AddMesh(b: Built, g: Graph, slot: Option<nat>, make: (Mesh, nat) --> Mesh, material: Material)
    : (Built, nat)
    requires CanMake(make) && MeshSubdividable(g, slot)
  {
    var h := slot.value;
    if h in b.meshMap then (b, b.meshMap[h])
    else
      var n := |b.graph.meshes|;
      var m := make(g.meshes[h], |b.graph.materials|);
      (b.(graph := b.graph.(materials := b.graph.materials + [material], meshes := b.graph.meshes + [m]),
          meshMap := b.meshMap[h := n]),
       n)
  }

  /** The first `p` mesh slots of an object, and the new slots for them. */
  function AddMeshes(b: Built, g: Graph, slots: seq<Option<nat>>, p: nat, make: (Mesh, nat) --> Mesh,
                     material: Material): (r: (Built, seq<Option<nat>>))
    requires CanMake(make) && p <= |slots| && forall q :: 0 <= q < |slots| ==> MeshSubdividable(g, slots[q])
    ensures |r.1| == p
  {
    if p == 0 then (b, [])
    else
      var (b1, hs) := AddMeshes(b, g, slots, p - 1, make, material);
      var (b2, h) := AddMesh(b1, g, slots[p - 1], make, material);
      (b2, hs + [Some(h)])
  }

  /** One instance slot: the new instance made for this instance before;
      else, when its object was met before, a fresh instance of that new
      object; else a new object of the subdivided meshes and a fresh
      instance of it, both recorded. */
  function AddInstance(b: Built, g: Graph, ih: nat, make: (Mesh, nat) --> Mesh, material: Material,
                       xfm: Element): Built
    requires CanMake(make) && ih < |g.instances| && ObjectSubdividable(g, g.instances[ih].obj)
  {
    if ih in b.instMap then b.(slots := b.slots + [Some(b.instMap[ih])])
    else
      var o := g.instances[ih].obj;
      if o in b.objMap then
        var n := |b.graph.instances|;
        b.(graph := b.graph.(instances := b.graph.instances + [Instance(xfm, b.objMap[o])]),
           slots := b.slots + [Some(n)])
      else
        var (b1, hs) := AddMeshes(b, g, g.objects[o].meshes, |g.objects[o].meshes|, make, material);
        var no, n := |b1.graph.objects|, |b1.graph.instances|;
        b1.(graph := b1.graph.(objects := b1.graph.objects + [Object(hs)],
                               instances := b1.graph.instances + [Instance(xfm, no)]),
            slots := b1.slots + [Some(n)], objMap := b1.objMap[o := no], instMap := b1.instMap[ih := n])
  }

  /** The state after the first `n` instance slots. */
  function BuiltUpTo(s: Scene, n: nat, make: (Mesh, nat) --> Mesh, material: Material, xfm: Element)
    : Built
    requires CanMake(make) && Subdividable(s) && n <= |s.instances|
  {
    if n == 0 then Built(EmptyGraph, [], map[], map[], map[])
    else AddInstance(BuiltUpTo(s, n - 1, make, material, xfm), s.graph, s.instances[n - 1].value, make, material, xfm)
  }

  /** The new scene: the new instances and nothing else, no lights. */
  function SubdivideSpec(s: Scene, mid: (Element, Element) -> Element, material: Material, xfm: Element): Scene
    requires Subdividable(s)
  {
    var b := BuiltUpTo(s, |s.instances|, Subdivision(mid), material, xfm);
    Scene(b.graph, b.slots, [], [], None)
  }

  // ---------------------------------------------------------------------
  // The loops of the source
  // ---------------------------------------------------------------------

  /** A new mesh holding the subdivision of `m`. */
  method MakeMesh(m: Mesh, mid: (Element, Element) -> Element, material: nat) returns (r: Mesh)
    requires IndicesValid(m.indices, |m.vertices|)
    ensures r == NewMesh(m, mid, material)
  {
    var vertices, indices := SubdivideTriangles(m.vertices, m.indices, mid);
    r := Mesh(indices, vertices, [], [], material);
  }

  /** One pass of the loop over an object's meshes: reuse the new mesh
      made for this mesh before, or subdivide it under a fresh material and
      record it. */
  method AddOneMesh(graph: Graph, slots: seq<Option<nat>>, instMap: map<nat, nat>, objMap: map<nat, nat>,
                    meshMap: map<nat, nat>, g: Graph, slot: Option<nat>, mid: (Element, Element) -> Element,
                    material: Material)
    returns (graph': Graph, meshMap': map<nat, nat>, h: nat)
    requires MeshSubdividable(g, slot)
    ensures (Built(graph', slots, instMap, objMap, meshMap'), h)
            == AddMesh(Built(graph, slots, instMap, objMap, meshMap), g, slot, Subdivision(mid), material)
  {
    var mesh := slot.value;
    if mesh in meshMap {
      return graph, meshMap, meshMap[mesh];
    }
    var newMesh := MakeMesh(g.meshes[mesh], mid, |graph.materials|);
    h := |graph.meshes|;
    graph' := graph.(materials := graph.materials + [material], meshes := graph.meshes + [newMesh]);
    meshMap' := meshMap[mesh := h];
  }

  /** The loop over the meshes of an object met for the first time. */
  method AddObjectMeshes(graph: Graph, slots: seq<Option<nat>>, instMap: map<nat, nat>, objMap: map<nat, nat>,
                         meshMap: map<nat, nat>, g: Graph, obj: nat, mid: (Element, Element) -> Element,
                         material: Material)
    returns (graph': Graph, meshMap': map<nat, nat>, newMeshes: seq<Option<nat>>)
    requires ObjectSubdividable(g, obj)
    ensures (Built(graph', slots, instMap, objMap, meshMap'), newMeshes)
            == AddMeshes(Built(graph, slots, instMap, objMap, meshMap), g, g.objects[obj].meshes,
                         |g.objects[obj].meshes|, Subdivision(mid), material)
  {
    var meshes := g.objects[obj].meshes;
    graph', meshMap', newMeshes := graph, meshMap, [];
    for p := 0 to |meshes|
      invariant (Built(graph', slots, instMap, objMap, meshMap'), newMeshes)
                == AddMeshes(Built(graph, slots, instMap, objMap, meshMap), g, meshes, p, Subdivision(mid), material)
    {
      var h;
      graph', meshMap', h := AddOneMesh(graph', slots, instMap, objMap, meshMap', g, meshes[p], mid, material);
      newMeshes := newMeshes + [Some(h)];
    }
  }

  /** `miniSubdivide` from loading to the new scene: the loop over the
      instance slots with the three identity maps. */
  method Subdivide(s: Scene, mid: (Element, Element) -> Element, material: Material, xfm: Element)
    returns (r: Scene)
    requires Subdividable(s)
    ensures r == SubdivideSpec(s, mid, material, xfm)
  {
    var instances: map<nat, nat> := map[];
    var objects: map<nat, nat> := map[];
    var meshes: map<nat, nat> := map[];
    var newInstances: seq<Option<nat>> := [];
    var graph := EmptyGraph;
    for k := 0 to |s.instances|
      invariant Built(graph, newInstances, instances, objects, meshes) == BuiltUpTo(s, k, Subdivision(mid), material, xfm)
    {
      var inst := s.instances[k].value;
      if inst in instances {
        newInstances := newInstances + [Some(instances[inst])];
        continue;
      }
      var obj := s.graph.instances[inst].obj;
      if obj in objects {
        var n := |graph.instances|;
        graph := graph.(instances := graph.instances + [Instance(xfm, objects[obj])]);
        newInstances := newInstances + [Some(n)];
        continue;
      }
      var newMeshes;
      graph, meshes, newMeshes := AddObjectMeshes(graph, newInstances, instances, objects, meshes, s.graph, obj,
                                                  mid, material);
      var newObject := |graph.objects|;
      var newInstance := |graph.instances|;
      graph := graph.(objects := graph.objects + [Object(newMeshes)],
                      instances := graph.instances + [Instance(xfm, newObject)]);
      newInstances := newInstances + [Some(newInstance)];
      objects := objects[obj := newObject];
      instances := instances[inst := newInstance];
    }
    r := Scene(graph, newInstances, [], [], None);
  }
}
