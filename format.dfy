/** The `.mini` file format as token sequences: what `Scene::save` writes
    for a scene and its `SerializedScene`, and what `Scene::load` makes of a
    token sequence. The decoder has one function per loop of `Scene::load`,
    each extending what has been built so far (a `LoadState`) and handing
    on the tokens it did not consume; the methods in `Store` follow these
    functions read by read. */
module Format {
  import opened Wrappers
  import opened Stream
  import opened SceneGraph
  import opened Materials
  import opened Serialized

  const FORMAT_VERSION := 12

  /** The file magic of the current format generation. */
  const EXPECTED_MAGIC: nat := 4321000000 + FORMAT_VERSION

  /** The magic a file of format generation `version` starts and ends with. */
  function MagicOf(version: int): (w: nat)
    requires version == 11 || version == 12
    ensures version == FORMAT_VERSION ==> w == EXPECTED_MAGIC
    ensures version == 11 ==> w == EXPECTED_MAGIC - 1
  {
    4321000000 + version
  }

  /** The format generation `Scene::load` takes a leading magic for. */
  function VersionOf(magic: nat): (r: Result<int, Error>)
    ensures r.Ok? <==> magic == EXPECTED_MAGIC || magic == EXPECTED_MAGIC - 1
    ensures r.Ok? ==> (r.value == 11 || r.value == 12) && MagicOf(r.value) == magic
    ensures r.Err? ==> r.error == WrongMagic
  {
    if magic == EXPECTED_MAGIC then Ok(FORMAT_VERSION)
    else if magic == EXPECTED_MAGIC - 1 then Ok(11)
    else Err(WrongMagic)
  }

  // ---------------------------------------------------------------------
  // Writing
  // ---------------------------------------------------------------------

  /** Two partial outputs in sequence: the first failure wins. */
  function Join(a: Result<seq<Token>, Error>, b: Result<seq<Token>, Error>): Result<seq<Token>, Error> {
    var x :- a;
    var y :- b;
    Ok(x + y)
  }

  /** The four writes of a texture's content. */
  function TextureTokens(t: Texture): seq<Token> {
    [Field(t.size), Field(t.format), Field(t.filterMode), Blob(t.data)]
  }

  /** One entry of the texture list: a validity flag, then the content. */
  function EncodeTextureSlot(g: Graph, slot: Option<nat>): seq<Token>
    requires TextureRefOk(g, slot)
  {
    if slot.None? then [Int(0)] else [Int(1)] + TextureTokens(g.textures[slot.value])
  }

  function EncodeTextures(g: Graph, slots: seq<Option<nat>>): seq<Token>
    requires forall i :: 0 <= i < |slots| ==> TextureRefOk(g, slots[i])
  {
    if slots == [] then [] else EncodeTextureSlot(g, slots[0]) + EncodeTextures(g, slots[1..])
  }

  /** The light section; an environment light whose texture is null fails
      the `assert(tex)` of the save. */
  function EncodeLights(s: Scene): Result<seq<Token>, Error>
    requires SceneOk(s)
  {
    var env :-
      if s.envMapLight.None? then Ok([Int(0)])
      else if s.envMapLight.value.texture.None? then Err(NullEnvMapTexture)
      else Ok([Int(1), Field(s.envMapLight.value.transform)]
              + TextureTokens(s.graph.textures[s.envMapLight.value.texture.value]));
    Ok([Blob(s.quadLights), Blob(s.dirLights)] + env)
  }

  /** One material: in generation 12 its tag and then its variant's fields;
      generation 11 wrote the Disney parameters alone, and had no other
      variant to write. */
  function EncodeMaterial(m: Material, textureIDs: map<Option<nat>, int>, version: int)
    : Result<seq<Token>, Error>
  {
    if version == 11 then
      if m.Disney? then Ok(WriteFields(m, textureIDs)) else Err(UnsupportedMaterial)
    else
      var tag :- MaterialTagOf(m);
      Ok([Int(tag)] + WriteFields(m, textureIDs))
  }

  function EncodeMaterials(g: Graph, hs: seq<nat>, textureIDs: map<Option<nat>, int>, version: int)
    : Result<seq<Token>, Error>
    requires forall i :: 0 <= i < |hs| ==> hs[i] < |g.materials|
  {
    if hs == [] then Ok([])
    else Join(EncodeMaterial(g.materials[hs[0]], textureIDs, version),
              EncodeMaterials(g, hs[1..], textureIDs, version))
  }

  /** One mesh slot of an object: a null slot is a zero flag; a mesh is its
      four buffers and the ID of its material, which must be registered. */
  function EncodeMeshSlot(g: Graph, slot: Option<nat>, materialIDs: map<nat, int>)
    : Result<seq<Token>, Error>
    requires slot.Some? ==> slot.value < |g.meshes|
  {
    if slot.None? then Ok([Int(0)])
    else
      var mesh := g.meshes[slot.value];
      var matID := GetID(mesh.material, materialIDs);
      if matID < 0 then Err(UnregisteredMaterial)
      else Ok([Int(1), Tris(mesh.indices), Blob(mesh.vertices), Blob(mesh.normals),
               Blob(mesh.texcoords), Int(matID)])
  }

  function EncodeMeshSlots(g: Graph, slots: seq<Option<nat>>, materialIDs: map<nat, int>)
    : Result<seq<Token>, Error>
    requires forall i :: 0 <= i < |slots| && slots[i].Some? ==> slots[i].value < |g.meshes|
  {
    if slots == [] then Ok([])
    else Join(EncodeMeshSlot(g, slots[0], materialIDs), EncodeMeshSlots(g, slots[1..], materialIDs))
  }

  /** One object: its number of mesh slots, then each slot. */
  function EncodeObject(g: Graph, o: nat, materialIDs: map<nat, int>): Result<seq<Token>, Error>
    requires GraphOk(g) && o < |g.objects|
  {
    Join(Ok([Count(|g.objects[o].meshes|)]), EncodeMeshSlots(g, g.objects[o].meshes, materialIDs))
  }

  function EncodeObjects(g: Graph, os: seq<nat>, materialIDs: map<nat, int>): Result<seq<Token>, Error>
    requires GraphOk(g) && forall i :: 0 <= i < |os| ==> os[i] < |g.objects|
  {
    if os == [] then Ok([])
    else Join(EncodeObject(g, os[0], materialIDs), EncodeObjects(g, os[1..], materialIDs))
  }

  /** One instance slot: a zero flag for null, else the transform and the
      ID of the object (written unchecked). */
  function EncodeInstanceSlot(g: Graph, slot: Option<nat>, objectIDs: map<nat, int>): seq<Token>
    requires slot.Some? ==> slot.value < |g.instances|
  {
    if slot.None? then [Int(0)]
    else [Int(1), Field(g.instances[slot.value].xfm), Int(GetID(g.instances[slot.value].obj, objectIDs))]
  }

  function EncodeInstances(g: Graph, slots: seq<Option<nat>>, objectIDs: map<nat, int>): seq<Token>
    requires forall i :: 0 <= i < |slots| && slots[i].Some? ==> slots[i].value < |g.instances|
  {
    if slots == [] then []
    else EncodeInstanceSlot(g, slots[0], objectIDs) + EncodeInstances(g, slots[1..], objectIDs)
  }

  /** The whole file for format generation `version`, or the first failure
      in the order the sections are written. */
  function EncodeScene(s: Scene, ser: SerializedScene, version: int): Result<seq<Token>, Error>
    requires SceneOk(s) && Consistent(ser, s.graph) && (version == 11 || version == 12)
  {
    var lights :- EncodeLights(s);
    var materials :- EncodeMaterials(s.graph, ser.materials, ser.textureIDs, version);
    var objects :- EncodeObjects(s.graph, ser.objects, ser.materialIDs);
    Ok([Word(MagicOf(version)), Count(|ser.textures|)] + EncodeTextures(s.graph, ser.textures)
       + lights
       + [Count(|ser.materials|)] + materials
       + [Count(|ser.objects|)] + objects
       + [Count(|s.instances|)] + EncodeInstances(s.graph, s.instances, ser.objectIDs)
       + [Word(MagicOf(version))])
  }

  /** `Scene::save`: `opens` is whether the file could be opened for
      writing, `good` whether the stream was still good after the last
      write. */
  function SaveSpec(s: Scene, ser: SerializedScene, opens: bool, good: bool): Result<seq<Token>, Error>
    requires SceneOk(s) && Consistent(ser, s.graph)
  {
    if !opens then Err(CannotOpen)
    else
      var ts :- EncodeScene(s, ser, FORMAT_VERSION);
      if !good then Err(WriteFailed) else Ok(ts)
  }

  // ---------------------------------------------------------------------
  // Reading
  // ---------------------------------------------------------------------

  /** What `Scene::load` has built so far: the format generation, the node
      arenas, the texture table the file's texture IDs index, the lights,
      the mesh slots of the object being read and the instance slots. */
  datatype LoadState = LoadState(
    version: int, graph: Graph, textures: seq<Option<nat>>,
    quadLights: seq<Element>, dirLights: seq<Element>, envMapLight: Option<EnvMapLight>,
    meshes: seq<Option<nat>>, instances: seq<Option<nat>>)
  {
    /** A fresh texture node, entered into the texture table. */
    function WithTexture(t: Texture): LoadState {
      this.(graph := graph.(textures := graph.textures + [t]),
            textures := textures + [Some(|graph.textures|)])
    }

    function WithMaterial(m: Material): LoadState {
      this.(graph := graph.(materials := graph.materials + [m]))
    }

    /** A fresh mesh node, appended to the object being read. */
    function WithMesh(m: Mesh): LoadState {
      this.(graph := graph.(meshes := graph.meshes + [m]), meshes := meshes + [Some(|graph.meshes|)])
    }

    /** The object being read, finished. */
    function WithObject(): LoadState {
      this.(graph := graph.(objects := graph.objects + [Object(meshes)]), meshes := [])
    }

    /** A fresh instance node, appended to the instance slots. */
    function WithInstance(i: Instance): LoadState {
      this.(graph := graph.(instances := graph.instances + [i]),
            instances := instances + [Some(|graph.instances|)])
    }

    function Scene(): Scene {
      SceneGraph.Scene(graph, instances, quadLights, dirLights, envMapLight)
    }
  }

  function InitialState(version: int): LoadState {
    LoadState(version, EmptyGraph, [], [], [], None, [], [])
  }

  /** The four reads of a texture's content. */
  function DecodeTexture(ts: seq<Token>): Result<Parsed<Texture>, Error> {
    var size :- ParseField(ts);
    var format :- ParseField(size.rest);
    var filterMode :- ParseField(format.rest);
    var data :- ParseBlob(filterMode.rest);
    Ok(Parsed(Texture(size.value, format.value, filterMode.value, data.value), data.rest))
  }

  /** `Scene::load` on the content of a file that could be opened: the
      sections in file order, then the end marker. */
  function Decode(ts: seq<Token>): Result<Scene, Error> {
    var magic :- ParseWord(ts);
    var version :- VersionOf(magic.value);
    var numTextures :- ParseCount(magic.rest);
    var textures :- DecodeTextures(numTextures.rest, numTextures.value, InitialState(version));
    var lights :- DecodeLights(textures.rest, textures.value);
    DecodeFromMaterials(lights.rest, lights.value)
  }

  /** The rest of `Decode` once the lights are read: materials, objects,
      instances, then the end marker. */
  function DecodeFromMaterials(ts: seq<Token>, st: LoadState): Result<Scene, Error> {
    var numMaterials :- ParseCount(ts);
    var materials :- DecodeMaterials(numMaterials.rest, numMaterials.value, st);
    var numObjects :- ParseCount(materials.rest);
    var objects :- DecodeObjects(numObjects.rest, numObjects.value, materials.value);
    var numInstances :- ParseCount(objects.rest);
    var instances :- DecodeInstances(numInstances.rest, numInstances.value, objects.value);
    CheckEnd(instances.rest, instances.value.Scene())
  }

  /** The trailing magic: either accepted magic, whichever the leading one
      was; the loaded scene is given back only after it. Tokens after it are
      not looked at. */
  function CheckEnd(ts: seq<Token>, loaded: Scene): Result<Scene, Error> {
    var magicAtEnd :- ParseWord(ts);
    if magicAtEnd.value != EXPECTED_MAGIC && magicAtEnd.value != EXPECTED_MAGIC - 1 then Err(CorruptEnd)
    else Ok(loaded)
  }

  /** `n` texture entries; any nonzero flag means a texture follows. */
  function DecodeTextures(ts: seq<Token>, n: nat, st: LoadState): Result<Parsed<LoadState>, Error>
    decreases n
  {
    if n == 0 then Ok(Parsed(st, ts))
    else
      var valid :- ParseInt(ts);
      if valid.value == 0 then DecodeTextures(valid.rest, n - 1, st.(textures := st.textures + [None]))
      else
        var tex :- DecodeTexture(valid.rest);
        DecodeTextures(tex.rest, n - 1, st.WithTexture(tex.value))
  }

  /** The lights. The environment light's texture becomes a node of its
      own, outside the texture table. */
  function DecodeLights(ts: seq<Token>, st: LoadState): Result<Parsed<LoadState>, Error> {
    var quad :- ParseBlob(ts);
    var dir :- ParseBlob(quad.rest);
    var hasEnvMap :- ParseInt(dir.rest);
    var st1 := st.(quadLights := quad.value, dirLights := dir.value);
    if hasEnvMap.value == 0 then Ok(Parsed(st1, hasEnvMap.rest))
    else
      var transform :- ParseField(hasEnvMap.rest);
      var tex :- DecodeTexture(transform.rest);
      Ok(Parsed(st1.(graph := st1.graph.(textures := st1.graph.textures + [tex.value]),
                     envMapLight := Some(EnvMapLight(transform.value, Some(|st1.graph.textures|)))),
                tex.rest))
  }

  /** One material: its tag (generation 11 files carry none, and every
      material is read as Disney), then the fields of that variant. */
  function DecodeMaterial(ts: seq<Token>, st: LoadState): Result<Parsed<Material>, Error> {
    var tag :- if st.version == 11 then Ok(Parsed(DISNEY, ts)) else ParseInt(ts);
    var proto :- CreateMaterialFromTag(tag.value);
    ReadFields(proto, tag.rest, st.textures)
  }

  /** `n` materials. */
  function DecodeMaterials(ts: seq<Token>, n: nat, st: LoadState): Result<Parsed<LoadState>, Error>
    decreases n
  {
    if n == 0 then Ok(Parsed(st, ts))
    else
      var mat :- DecodeMaterial(ts, st);
      DecodeMaterials(mat.rest, n - 1, st.WithMaterial(mat.value))
  }

  /** One valid mesh: its four buffers and the ID of its material, which
      must name a loaded material. */
  function DecodeMesh(ts: seq<Token>, st: LoadState): Result<Parsed<Mesh>, Error> {
    var indices :- ParseTris(ts);
    var vertices :- ParseBlob(indices.rest);
    var normals :- ParseBlob(vertices.rest);
    var texcoords :- ParseBlob(normals.rest);
    var matID :- ParseInt(texcoords.rest);
    if !(0 <= matID.value < |st.graph.materials|) then Err(MaterialIdOutOfRange)
    else Ok(Parsed(Mesh(indices.value, vertices.value, normals.value, texcoords.value, matID.value),
                   matID.rest))
  }

  /** `m` mesh slots of the object being read. A zero flag is skipped: the
      loaded object gets no slot for it. */
  function DecodeMeshes(ts: seq<Token>, m: nat, st: LoadState): Result<Parsed<LoadState>, Error>
    decreases m
  {
    if m == 0 then Ok(Parsed(st, ts))
    else
      var valid :- ParseInt(ts);
      if valid.value == 0 then DecodeMeshes(valid.rest, m - 1, st)
      else
        var mesh :- DecodeMesh(valid.rest, st);
        DecodeMeshes(mesh.rest, m - 1, st.WithMesh(mesh.value))
  }

  /** `n` objects, each its number of mesh slots and then the slots. */
  function DecodeObjects(ts: seq<Token>, n: nat, st: LoadState): Result<Parsed<LoadState>, Error>
    decreases n
  {
    if n == 0 then Ok(Parsed(st, ts))
    else
      var numMeshes :- ParseCount(ts);
      var meshes :- DecodeMeshes(numMeshes.rest, numMeshes.value, st.(meshes := []));
      DecodeObjects(meshes.rest, n - 1, meshes.value.WithObject())
  }

  /** One valid instance: its transform and the ID of its object, which
      must name a loaded object. */
  function DecodeInstance(ts: seq<Token>, st: LoadState): Result<Parsed<Instance>, Error> {
    var xfm :- ParseField(ts);
    var objID :- ParseInt(xfm.rest);
    if !(0 <= objID.value < |st.graph.objects|) then Err(ObjectIdOutOfRange)
    else Ok(Parsed(Instance(xfm.value, objID.value), objID.rest))
  }

  /** `n` instance slots; a zero flag is a null slot. */
  function DecodeInstances(ts: seq<Token>, n: nat, st: LoadState): Result<Parsed<LoadState>, Error>
    decreases n
  {
    if n == 0 then Ok(Parsed(st, ts))
    else
      var valid :- ParseInt(ts);
      if valid.value == 0 then DecodeInstances(valid.rest, n - 1, st.(instances := st.instances + [None]))
      else
        var inst :- DecodeInstance(valid.rest, st);
        DecodeInstances(inst.rest, n - 1, st.WithInstance(inst.value))
  }

  /** `Scene::load`: `None` when the file cannot be opened. */
  function LoadSpec(file: Option<seq<Token>>): Result<Scene, Error> {
    if file.None? then Err(CannotOpen) else Decode(file.value)
  }
}
