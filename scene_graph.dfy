/** The in-memory scene graph of miniScene. Shared ownership (`std::shared_ptr`)
    is modelled by arenas: every texture, material, mesh, object and instance
    lives at a position of its arena in `Graph`, and a reference to it is that
    position (a handle). Two references share a node exactly when their
    handles are equal. A null pointer is `None`. */
module SceneGraph {
  import opened Wrappers
  import opened Stream

  datatype Texture = Texture(size: Element, format: Element, filterMode: Element, data: seq<Element>)

  /** The closed set of material variants, each with its own parameters in
      the order its `write` emits them. `Unsupported` stands for any other
      subclass of `Material`, the plain base class included. */
  datatype Material =
    | Disney(emission: Element, baseColor: Element, metallic: Element, roughness: Element,
             transmission: Element, ior: Element,
             colorTexture: Option<nat>, alphaTexture: Option<nat>)
    | Matte(reflectance: Element)
    | Plastic(ks: Element, eta: Element, pigmentColor: Element, roughness: Element)
    | Metal(eta: Element, k: Element, roughness: Element)
    | Velvet(reflectance: Element, horizonScatteringColor: Element,
             horizonScatteringFallOff: Element, backScattering: Element)
    | MetallicPaint(glitterColor: Element, glitterSpread: Element, shadeColor: Element, eta: Element)
    | ThinGlass(eta: Element, thickness: Element, transmission: Element)
    | Dielectric(etaInside: Element, etaOutside: Element, transmission: Element)
    | Unsupported

  /** A triangle mesh; `material` is a handle into the material arena. */
  datatype Mesh = Mesh(indices: seq<Tri>, vertices: seq<Element>, normals: seq<Element>,
                       texcoords: seq<Element>, material: nat)

  /** An object: its list of mesh slots, each null or a mesh handle. */
  datatype Object = Object(meshes: seq<Option<nat>>)

  /** A placement of one object (a handle) under an affine transform. */
  datatype Instance = Instance(xfm: Element, obj: nat)

  datatype EnvMapLight = EnvMapLight(transform: Element, texture: Option<nat>)

  /** The arenas of all shared nodes. */
  datatype Graph = Graph(textures: seq<Texture>, materials: seq<Material>, meshes: seq<Mesh>,
                         objects: seq<Object>, instances: seq<Instance>)

  const EmptyGraph := Graph([], [], [], [], [])

  /** The root: the ordered instance slots (null or an instance handle) and
      the lights. */
  datatype Scene = Scene(graph: Graph, instances: seq<Option<nat>>, quadLights: seq<Element>,
                         dirLights: seq<Element>, envMapLight: Option<EnvMapLight>)

  predicate TextureRefOk(g: Graph, t: Option<nat>) {
    t.Some? ==> t.value < |g.textures|
  }

  predicate MaterialOk(g: Graph, m: Material) {
    m.Disney? ==> TextureRefOk(g, m.colorTexture) && TextureRefOk(g, m.alphaTexture)
  }

  predicate ObjectOk(g: Graph, o: Object) {
    forall s :: 0 <= s < |o.meshes| && o.meshes[s].Some? ==> o.meshes[s].value < |g.meshes|
  }

  /** Every handle stored anywhere in the graph points into its arena. */
  predicate GraphOk(g: Graph) {
    && (forall h :: 0 <= h < |g.materials| ==> MaterialOk(g, g.materials[h]))
    && (forall h :: 0 <= h < |g.meshes| ==> g.meshes[h].material < |g.materials|)
    && (forall h :: 0 <= h < |g.objects| ==> ObjectOk(g, g.objects[h]))
    && (forall h :: 0 <= h < |g.instances| ==> g.instances[h].obj < |g.objects|)
  }

  predicate SceneOk(s: Scene) {
    && GraphOk(s.graph)
    && (forall k :: 0 <= k < |s.instances| && s.instances[k].Some? ==>
          s.instances[k].value < |s.graph.instances|)
    && (s.envMapLight.Some? ==> TextureRefOk(s.graph, s.envMapLight.value.texture))
  }

  /** The object placed by the instance in slot `k`. */
  function ObjectOf(s: Scene, k: nat): nat
    requires SceneOk(s) && k < |s.instances| && s.instances[k].Some?
  {
    s.graph.instances[s.instances[k].value].obj
  }

  /** The handles of the non-null slots, in order. */
  function Present(slots: seq<Option<nat>>): (r: seq<nat>)
    ensures |r| <= |slots|
  {
    if slots == [] then []
    else if slots[0].None? then Present(slots[1..])
    else [slots[0].value] + Present(slots[1..])
  }
}
