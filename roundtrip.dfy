/** What loading gives back for a saved scene. For each section of the file
    a fold says how `Scene::load` extends its `LoadState` on the tokens
    `Scene::save` wrote for that section, and a lemma says that the decoder
    of the section, run on those tokens followed by anything, consumes
    exactly them and ends where the fold says. */
module RoundTrip {
  import opened Wrappers
  import opened Stream
  import opened SceneGraph
  import opened Materials
  import opened Serialized
  import opened Format

  lemma EmptyPrefix(a: seq<Token>, rest: seq<Token>)
    requires a == []
    ensures a + rest == rest
  {
  }

  lemma TextureRoundTrip(t: Texture, rest: seq<Token>)
    ensures DecodeTexture(TextureTokens(t) + rest) == Ok(Parsed(t, rest))
  {
    var ts := TextureTokens(t) + rest;
    assert ts[1..] == [Field(t.format), Field(t.filterMode), Blob(t.data)] + rest;
    assert ts[2..] == [Field(t.filterMode), Blob(t.data)] + rest;
    assert ts[3..] == [Blob(t.data)] + rest;
    assert ts[4..] == rest;
  }

  // ---------------------------------------------------------------------
  // Textures
  // ---------------------------------------------------------------------

  /** One entry of the texture list, loaded: a null entry of the table, or
      a fresh texture node entered into it. */
  function LoadedTexture(g: Graph, slot: Option<nat>, st: LoadState): LoadState
    requires TextureRefOk(g, slot)
  {
    if slot.None? then st.(textures := st.textures + [None]) else st.WithTexture(g.textures[slot.value])
  }

  /** The texture table and arena after loading the texture list. */
  function LoadedTextures(g: Graph, slots: seq<Option<nat>>, st: LoadState): (r: LoadState)
    requires forall i :: 0 <= i < |slots| ==> TextureRefOk(g, slots[i])
    ensures |r.textures| == |st.textures| + |slots|
    ensures r.graph.materials == st.graph.materials && r.graph.meshes == st.graph.meshes
    ensures r.graph.objects == st.graph.objects && r.graph.instances == st.graph.instances
    ensures r.version == st.version && r.meshes == st.meshes && r.instances == st.instances
    ensures r.quadLights == st.quadLights && r.dirLights == st.dirLights && r.envMapLight == st.envMapLight
    decreases |slots|
  {
    if slots == [] then st
    else
      assert TextureRefOk(g, slots[0]);
      LoadedTextures(g, slots[1..], LoadedTexture(g, slots[0], st))
  }

  lemma TextureSlotRoundTrip(g: Graph, slot: Option<nat>, n: nat, st: LoadState, rest: seq<Token>)
    requires TextureRefOk(g, slot)
    ensures DecodeTextures(EncodeTextureSlot(g, slot) + rest, n + 1, st)
            == DecodeTextures(rest, n, LoadedTexture(g, slot, st))
  {
    if slot.None? {
      assert EncodeTextureSlot(g, slot) + rest == [Int(0)] + rest;
      ReadsWhatWasWritten(Int(0), rest);
    } else {
      var t := g.textures[slot.value];
      assert EncodeTextureSlot(g, slot) + rest == [Int(1)] + (TextureTokens(t) + rest);
      ReadsWhatWasWritten(Int(1), TextureTokens(t) + rest);
      TextureRoundTrip(t, rest);
    }
  }

  /** Loading the texture list consumes exactly what saving it wrote. */
  lemma {:induction false} TexturesRoundTrip(g: Graph, slots: seq<Option<nat>>, st: LoadState, rest: seq<Token>)
    requires forall i :: 0 <= i < |slots| ==> TextureRefOk(g, slots[i])
    ensures DecodeTextures(EncodeTextures(g, slots) + rest, |slots|, st)
            == Ok(Parsed(LoadedTextures(g, slots, st), rest))
    decreases |slots|
  {
    if slots == [] {
      EmptyPrefix(EncodeTextures(g, slots), rest);
    } else {
      assert TextureRefOk(g, slots[0]);
      var tail := EncodeTextures(g, slots[1..]) + rest;
      assert EncodeTextures(g, slots) + rest == EncodeTextureSlot(g, slots[0]) + tail;
      TextureSlotRoundTrip(g, slots[0], |slots| - 1, st, tail);
      TexturesRoundTrip(g, slots[1..], LoadedTexture(g, slots[0], st), rest);
    }
  }

  // ---------------------------------------------------------------------
  // Lights
  // ---------------------------------------------------------------------

  /** The lights of `s` after loading them; the environment texture becomes
      a new texture node. */
  function LoadedLights(s: Scene, st: LoadState): (r: LoadState)
    requires SceneOk(s)
    requires s.envMapLight.Some? ==> s.envMapLight.value.texture.Some?
    ensures r.textures == st.textures && r.graph.materials == st.graph.materials
    ensures r.graph.meshes == st.graph.meshes && r.graph.objects == st.graph.objects
    ensures r.graph.instances == st.graph.instances
    ensures r.version == st.version && r.meshes == st.meshes && r.instances == st.instances
  {
    var st1 := st.(quadLights := s.quadLights, dirLights := s.dirLights);
    if s.envMapLight.None? then st1
    else
      st1.(graph := st1.graph.(textures := st1.graph.textures
                                 + [s.graph.textures[s.envMapLight.value.texture.value]]),
           envMapLight := Some(EnvMapLight(s.envMapLight.value.transform, Some(|st1.graph.textures|))))
  }

  /** Loading the light section consumes exactly what saving it wrote. */
  lemma LightsRoundTrip(s: Scene, st: LoadState, rest: seq<Token>)
    requires SceneOk(s) && EncodeLights(s).Ok?
    ensures s.envMapLight.Some? ==> s.envMapLight.value.texture.Some?
    ensures DecodeLights(EncodeLights(s).value + rest, st) == Ok(Parsed(LoadedLights(s, st), rest))
  {
    var ts := EncodeLights(s).value + rest;
    if s.envMapLight.None? {
      assert ts == [Blob(s.quadLights)] + ([Blob(s.dirLights)] + ([Int(0)] + rest));
      ReadsWhatWasWritten(Blob(s.quadLights), [Blob(s.dirLights)] + ([Int(0)] + rest));
      ReadsWhatWasWritten(Blob(s.dirLights), [Int(0)] + rest);
      ReadsWhatWasWritten(Int(0), rest);
    } else {
      var env := s.envMapLight.value;
      var t := s.graph.textures[env.texture.value];
      var rest3 := [Field(env.transform)] + (TextureTokens(t) + rest);
      assert ts == [Blob(s.quadLights)] + ([Blob(s.dirLights)] + ([Int(1)] + rest3));
      ReadsWhatWasWritten(Blob(s.quadLights), [Blob(s.dirLights)] + ([Int(1)] + rest3));
      ReadsWhatWasWritten(Blob(s.dirLights), [Int(1)] + rest3);
      ReadsWhatWasWritten(Int(1), rest3);
      ReadsWhatWasWritten(Field(env.transform), TextureTokens(t) + rest);
      TextureRoundTrip(t, rest);
    }
  }

  // ---------------------------------------------------------------------
  // Materials
  // ---------------------------------------------------------------------

  /** The material arena after loading the material list: each material
      relocated against the texture table. */
  function LoadedMaterials(g: Graph, hs: seq<nat>, textureIDs: map<Option<nat>, int>, st: LoadState)
    : (r: LoadState)
    requires forall i :: 0 <= i < |hs| ==> hs[i] < |g.materials|
    requires forall i :: 0 <= i < |hs| ==> TexturesInTable(g.materials[hs[i]], textureIDs, |st.textures|)
    ensures |r.graph.materials| == |st.graph.materials| + |hs|
    ensures r.textures == st.textures && r.graph.textures == st.graph.textures
    ensures r.graph.meshes == st.graph.meshes && r.graph.objects == st.graph.objects
    ensures r.graph.instances == st.graph.instances
    ensures r.version == st.version && r.meshes == st.meshes && r.instances == st.instances
    ensures r.quadLights == st.quadLights && r.dirLights == st.dirLights && r.envMapLight == st.envMapLight
    decreases |hs|
  {
    if hs == [] then st
    else LoadedMaterials(g, hs[1..], textureIDs,
                         st.WithMaterial(Relocated(g.materials[hs[0]], textureIDs, st.textures)))
  }

  /** One material is read back as it was written, texture references
      relocated; in both format generations. */
  lemma MaterialRoundTrip(m: Material, textureIDs: map<Option<nat>, int>, st: LoadState, rest: seq<Token>)
    requires st.version == 11 || st.version == 12
    requires EncodeMaterial(m, textureIDs, st.version).Ok?
    requires TexturesInTable(m, textureIDs, |st.textures|)
    ensures DecodeMaterial(EncodeMaterial(m, textureIDs, st.version).value + rest, st)
            == Ok(Parsed(Relocated(m, textureIDs, st.textures), rest))
  {
    var ts := EncodeMaterial(m, textureIDs, st.version).value + rest;
    if st.version == 11 {
      assert ts == WriteFields(m, textureIDs) + rest;
      FieldsRoundTrip(m, CreateMaterialFromTag(DISNEY).value, textureIDs, st.textures, rest);
    } else {
      var tag := MaterialTagOf(m).value;
      assert ts == [Int(tag)] + (WriteFields(m, textureIDs) + rest);
      ReadsWhatWasWritten(Int(tag), WriteFields(m, textureIDs) + rest);
      TagRoundTrip(m);
      FieldsRoundTrip(m, CreateMaterialFromTag(tag).value, textureIDs, st.textures, rest);
    }
  }

  /** Loading the material list consumes exactly what saving it wrote. */
  lemma {:induction false} MaterialsRoundTrip(g: Graph, hs: seq<nat>, textureIDs: map<Option<nat>, int>,
                                              st: LoadState, rest: seq<Token>)
    requires st.version == 11 || st.version == 12
    requires forall i :: 0 <= i < |hs| ==> hs[i] < |g.materials|
    requires forall i :: 0 <= i < |hs| ==> TexturesInTable(g.materials[hs[i]], textureIDs, |st.textures|)
    requires EncodeMaterials(g, hs, textureIDs, st.version).Ok?
    ensures DecodeMaterials(EncodeMaterials(g, hs, textureIDs, st.version).value + rest, |hs|, st)
            == Ok(Parsed(LoadedMaterials(g, hs, textureIDs, st), rest))
    decreases |hs|
  {
    if hs == [] {
      EmptyPrefix(EncodeMaterials(g, hs, textureIDs, st.version).value, rest);
    } else {
      var m := g.materials[hs[0]];
      var head := EncodeMaterial(m, textureIDs, st.version);
      var tail := EncodeMaterials(g, hs[1..], textureIDs, st.version);
      assert head.Ok? && tail.Ok?;
      assert EncodeMaterials(g, hs, textureIDs, st.version).value + rest == head.value + (tail.value + rest);
      MaterialRoundTrip(m, textureIDs, st, tail.value + rest);
      MaterialsRoundTrip(g, hs[1..], textureIDs, st.WithMaterial(Relocated(m, textureIDs, st.textures)), rest);
    }
  }

  // ---------------------------------------------------------------------
  // Objects and meshes
  // ---------------------------------------------------------------------

  /** A mesh as loaded: the same buffers, its material given by ID. */
  function Relabeled(mesh: Mesh, materialIDs: map<nat, int>): Mesh
    requires GetID(mesh.material, materialIDs) >= 0
  {
    mesh.(material := GetID(mesh.material, materialIDs))
  }

  /** Every mesh in the slots is a node whose material is registered under
      an ID below `n`. */
  ghost predicate MeshesInTable(g: Graph, slots: seq<Option<nat>>, materialIDs: map<nat, int>, n: nat) {
    forall i :: 0 <= i < |slots| && slots[i].Some? ==>
      slots[i].value < |g.meshes| && 0 <= GetID(g.meshes[slots[i].value].material, materialIDs) < n
  }

  lemma MeshesInTableTail(g: Graph, slots: seq<Option<nat>>, materialIDs: map<nat, int>, n: nat)
    requires slots != [] && MeshesInTable(g, slots, materialIDs, n)
    ensures MeshesInTable(g, slots[1..], materialIDs, n)
    ensures slots[0].Some? ==>
              slots[0].value < |g.meshes| && 0 <= GetID(g.meshes[slots[0].value].material, materialIDs) < n
  {
    forall i | 0 <= i < |slots[1..]| && slots[1..][i].Some?
      ensures slots[1..][i].value < |g.meshes|
      ensures 0 <= GetID(g.meshes[slots[1..][i].value].material, materialIDs) < n
    {
      assert slots[1..][i] == slots[i + 1];
    }
  }

  /** One mesh slot, loaded: nothing for a null slot, else a fresh mesh node
      appended to the object being read. */
  function LoadedMeshSlot(g: Graph, slot: Option<nat>, materialIDs: map<nat, int>, st: LoadState): LoadState
    requires slot.Some? ==> slot.value < |g.meshes| && GetID(g.meshes[slot.value].material, materialIDs) >= 0
  {
    if slot.None? then st else st.WithMesh(Relabeled(g.meshes[slot.value], materialIDs))
  }

  /** The state after loading one object's mesh slots. */
  function LoadedMeshes(g: Graph, slots: seq<Option<nat>>, materialIDs: map<nat, int>, st: LoadState)
    : (r: LoadState)
    requires MeshesInTable(g, slots, materialIDs, |st.graph.materials|)
    ensures r.textures == st.textures && r.graph.textures == st.graph.textures
    ensures r.graph.materials == st.graph.materials && r.graph.objects == st.graph.objects
    ensures r.graph.instances == st.graph.instances
    ensures r.version == st.version && r.instances == st.instances
    ensures r.quadLights == st.quadLights && r.dirLights == st.dirLights && r.envMapLight == st.envMapLight
    decreases |slots|
  {
    if slots == [] then st
    else
      MeshesInTableTail(g, slots, materialIDs, |st.graph.materials|);
      LoadedMeshes(g, slots[1..], materialIDs, LoadedMeshSlot(g, slots[0], materialIDs, st))
  }

  lemma MeshSlotRoundTrip(g: Graph, slot: Option<nat>, materialIDs: map<nat, int>, n: nat, st: LoadState,
                          rest: seq<Token>)
    requires slot.Some? ==> slot.value < |g.meshes|
    requires slot.Some? ==> 0 <= GetID(g.meshes[slot.value].material, materialIDs) < |st.graph.materials|
    ensures EncodeMeshSlot(g, slot, materialIDs).Ok?
    ensures DecodeMeshes(EncodeMeshSlot(g, slot, materialIDs).value + rest, n + 1, st)
            == DecodeMeshes(rest, n, LoadedMeshSlot(g, slot, materialIDs, st))
  {
    if slot.None? {
      assert EncodeMeshSlot(g, slot, materialIDs).value + rest == [Int(0)] + rest;
      ReadsWhatWasWritten(Int(0), rest);
    } else {
      var mesh := g.meshes[slot.value];
      var id := GetID(mesh.material, materialIDs);
      var ts := EncodeMeshSlot(g, slot, materialIDs).value + rest;
      var body := [Tris(mesh.indices), Blob(mesh.vertices), Blob(mesh.normals), Blob(mesh.texcoords), Int(id)];
      assert ts == [Int(1)] + (body + rest);
      ReadsWhatWasWritten(Int(1), body + rest);
      assert (body + rest)[1..] == body[1..] + rest;
      assert (body + rest)[2..] == body[2..] + rest;
      assert (body + rest)[3..] == body[3..] + rest;
      assert (body + rest)[4..] == body[4..] + rest;
      assert (body + rest)[5..] == rest;
      assert DecodeMesh(body + rest, st) == Ok(Parsed(Relabeled(mesh, materialIDs), rest));
    }
  }

  /** Reassociates the token sequence under a decoding step. */
  lemma MeshesConcat(head: seq<Token>, tail: seq<Token>, rest: seq<Token>, n: nat, st: LoadState,
                     st1: LoadState, result: Result<Parsed<LoadState>, Error>)
    requires DecodeMeshes(head + (tail + rest), n + 1, st) == DecodeMeshes(tail + rest, n, st1)
    requires DecodeMeshes(tail + rest, n, st1) == result
    ensures DecodeMeshes((head + tail) + rest, n + 1, st) == result
  {
    assert (head + tail) + rest == head + (tail + rest);
  }

  /** Loading an object's mesh slots consumes exactly what saving them
      wrote. */
  lemma {:induction false} MeshesRoundTrip(g: Graph, slots: seq<Option<nat>>, materialIDs: map<nat, int>,
                                           st: LoadState, rest: seq<Token>)
    requires MeshesInTable(g, slots, materialIDs, |st.graph.materials|)
    ensures EncodeMeshSlots(g, slots, materialIDs).Ok?
    ensures DecodeMeshes(EncodeMeshSlots(g, slots, materialIDs).value + rest, |slots|, st)
            == Ok(Parsed(LoadedMeshes(g, slots, materialIDs, st), rest))
    decreases |slots|
  {
    if slots == [] {
      EmptyPrefix(EncodeMeshSlots(g, slots, materialIDs).value, rest);
    } else {
      MeshesInTableTail(g, slots, materialIDs, |st.graph.materials|);
      var st1 := LoadedMeshSlot(g, slots[0], materialIDs, st);
      MeshesRoundTrip(g, slots[1..], materialIDs, st1, rest);
      var head := EncodeMeshSlot(g, slots[0], materialIDs).value;
      var tail := EncodeMeshSlots(g, slots[1..], materialIDs).value;
      MeshSlotRoundTrip(g, slots[0], materialIDs, |slots| - 1, st, tail + rest);
      assert EncodeMeshSlots(g, slots, materialIDs).value == head + tail;
      MeshesConcat(head, tail, rest, |slots| - 1, st, st1, Ok(Parsed(LoadedMeshes(g, slots[1..], materialIDs, st1), rest)));
    }
  }

  /** The objects listed for saving have registered mesh materials. */
  ghost predicate ObjectsInTable(g: Graph, os: seq<nat>, materialIDs: map<nat, int>, n: nat)
    requires forall i :: 0 <= i < |os| ==> os[i] < |g.objects|
  {
    forall i :: 0 <= i < |os| ==> MeshesInTable(g, g.objects[os[i]].meshes, materialIDs, n)
  }

  /** The state after loading the object list: each object a fresh node
      holding the fresh nodes of its present meshes. */
  function LoadedObjects(g: Graph, os: seq<nat>, materialIDs: map<nat, int>, st: LoadState): (r: LoadState)
    requires forall i :: 0 <= i < |os| ==> os[i] < |g.objects|
    requires ObjectsInTable(g, os, materialIDs, |st.graph.materials|)
    ensures |r.graph.objects| == |st.graph.objects| + |os|
    ensures r.textures == st.textures && r.graph.textures == st.graph.textures
    ensures r.graph.materials == st.graph.materials && r.graph.instances == st.graph.instances
    ensures r.version == st.version && r.instances == st.instances
    ensures r.quadLights == st.quadLights && r.dirLights == st.dirLights && r.envMapLight == st.envMapLight
    decreases |os|
  {
    if os == [] then st
    else
      assert MeshesInTable(g, g.objects[os[0]].meshes, materialIDs, |st.graph.materials|);
      var st1 := LoadedMeshes(g, g.objects[os[0]].meshes, materialIDs, st.(meshes := [])).WithObject();
      assert ObjectsInTable(g, os[1..], materialIDs, |st1.graph.materials|) by {
        forall i | 0 <= i < |os[1..]|
          ensures MeshesInTable(g, g.objects[os[1..][i]].meshes, materialIDs, |st1.graph.materials|)
        {
          assert os[1..][i] == os[i + 1];
        }
      }
      LoadedObjects(g, os[1..], materialIDs, st1)
  }

  /** Loading one object consumes exactly what saving it wrote. */
  lemma ObjectRoundTrip(g: Graph, o: nat, materialIDs: map<nat, int>, n: nat, st: LoadState, rest: seq<Token>)
    requires GraphOk(g) && o < |g.objects|
    requires MeshesInTable(g, g.objects[o].meshes, materialIDs, |st.graph.materials|)
    ensures EncodeObject(g, o, materialIDs).Ok?
    ensures DecodeObjects(EncodeObject(g, o, materialIDs).value + rest, n + 1, st)
            == DecodeObjects(rest, n,
                 LoadedMeshes(g, g.objects[o].meshes, materialIDs, st.(meshes := [])).WithObject())
  {
    var slots := g.objects[o].meshes;
    MeshesRoundTrip(g, slots, materialIDs, st.(meshes := []), rest);
    var body := EncodeMeshSlots(g, slots, materialIDs).value;
    var ts := EncodeObject(g, o, materialIDs).value + rest;
    assert ts == [Count(|slots|)] + (body + rest);
    ReadsWhatWasWritten(Count(|slots|), body + rest);
    assert ParseCount(ts) == Ok(Parsed(|slots|, body + rest));
  }

  /** Loading the object list consumes exactly what saving it wrote. */
  lemma {:induction false} ObjectsRoundTrip(g: Graph, os: seq<nat>, materialIDs: map<nat, int>,
                                            st: LoadState, rest: seq<Token>)
    requires GraphOk(g) && forall i :: 0 <= i < |os| ==> os[i] < |g.objects|
    requires ObjectsInTable(g, os, materialIDs, |st.graph.materials|)
    ensures EncodeObjects(g, os, materialIDs).Ok?
    ensures DecodeObjects(EncodeObjects(g, os, materialIDs).value + rest, |os|, st)
            == Ok(Parsed(LoadedObjects(g, os, materialIDs, st), rest))
    decreases |os|
  {
    if os == [] {
      EmptyPrefix(EncodeObjects(g, os, materialIDs).value, rest);
    } else {
      assert MeshesInTable(g, g.objects[os[0]].meshes, materialIDs, |st.graph.materials|);
      var st1 := LoadedMeshes(g, g.objects[os[0]].meshes, materialIDs, st.(meshes := [])).WithObject();
      assert ObjectsInTable(g, os[1..], materialIDs, |st1.graph.materials|) by {
        forall i | 0 <= i < |os[1..]|
          ensures MeshesInTable(g, g.objects[os[1..][i]].meshes, materialIDs, |st1.graph.materials|)
        {
          assert os[1..][i] == os[i + 1];
        }
      }
      ObjectsRoundTrip(g, os[1..], materialIDs, st1, rest);
      var tail := EncodeObjects(g, os[1..], materialIDs).value;
      ObjectRoundTrip(g, os[0], materialIDs, |os| - 1, st, tail + rest);
      var head := EncodeObject(g, os[0], materialIDs).value;
      assert EncodeObjects(g, os, materialIDs).value == head + tail;
      ObjectsConcat(head, tail, rest, |os| - 1, st, st1, Ok(Parsed(LoadedObjects(g, os[1..], materialIDs, st1), rest)));
    }
  }

  /** Reassociates the token sequence under a decoding step. */
  lemma ObjectsConcat(head: seq<Token>, tail: seq<Token>, rest: seq<Token>, n: nat, st: LoadState,
                      st1: LoadState, result: Result<Parsed<LoadState>, Error>)
    requires DecodeObjects(head + (tail + rest), n + 1, st) == DecodeObjects(tail + rest, n, st1)
    requires DecodeObjects(tail + rest, n, st1) == result
    ensures DecodeObjects((head + tail) + rest, n + 1, st) == result
  {
    assert (head + tail) + rest == head + (tail + rest);
  }

  // ---------------------------------------------------------------------
  // Instances
  // ---------------------------------------------------------------------

  /** The instance slots name instances whose objects are registered under
      IDs below `n`. */
  ghost predicate InstancesInTable(g: Graph, slots: seq<Option<nat>>, objectIDs: map<nat, int>, n: nat) {
    forall k :: 0 <= k < |slots| && slots[k].Some? ==>
      slots[k].value < |g.instances| && 0 <= GetID(g.instances[slots[k].value].obj, objectIDs) < n
  }

  lemma InstancesInTableTail(g: Graph, slots: seq<Option<nat>>, objectIDs: map<nat, int>, n: nat)
    requires slots != [] && InstancesInTable(g, slots, objectIDs, n)
    ensures InstancesInTable(g, slots[1..], objectIDs, n)
    ensures slots[0].Some? ==>
              slots[0].value < |g.instances| && 0 <= GetID(g.instances[slots[0].value].obj, objectIDs) < n
  {
    forall k | 0 <= k < |slots[1..]| && slots[1..][k].Some?
      ensures slots[1..][k].value < |g.instances|
      ensures 0 <= GetID(g.instances[slots[1..][k].value].obj, objectIDs) < n
    {
      assert slots[1..][k] == slots[k + 1];
    }
  }

  /** One instance slot, loaded: a null slot, or a fresh instance node of
      the same transform placing the object loaded under the saved ID. */
  function LoadedInstance(g: Graph, slot: Option<nat>, objectIDs: map<nat, int>, st: LoadState): LoadState
    requires slot.Some? ==> slot.value < |g.instances| && GetID(g.instances[slot.value].obj, objectIDs) >= 0
  {
    if slot.None? then st.(instances := st.instances + [None])
    else st.WithInstance(Instance(g.instances[slot.value].xfm, GetID(g.instances[slot.value].obj, objectIDs)))
  }

  function LoadedInstances(g: Graph, slots: seq<Option<nat>>, objectIDs: map<nat, int>, st: LoadState)
    : (r: LoadState)
    requires InstancesInTable(g, slots, objectIDs, |st.graph.objects|)
    ensures |r.instances| == |st.instances| + |slots|
    ensures r.textures == st.textures && r.graph.textures == st.graph.textures
    ensures r.graph.materials == st.graph.materials && r.graph.meshes == st.graph.meshes
    ensures r.graph.objects == st.graph.objects
    ensures r.quadLights == st.quadLights && r.dirLights == st.dirLights && r.envMapLight == st.envMapLight
    decreases |slots|
  {
    if slots == [] then st
    else
      InstancesInTableTail(g, slots, objectIDs, |st.graph.objects|);
      LoadedInstances(g, slots[1..], objectIDs, LoadedInstance(g, slots[0], objectIDs, st))
  }

  lemma InstanceSlotRoundTrip(g: Graph, slot: Option<nat>, objectIDs: map<nat, int>, n: nat, st: LoadState,
                              rest: seq<Token>)
    requires slot.Some? ==> slot.value < |g.instances|
    requires slot.Some? ==> 0 <= GetID(g.instances[slot.value].obj, objectIDs) < |st.graph.objects|
    ensures DecodeInstances(EncodeInstanceSlot(g, slot, objectIDs) + rest, n + 1, st)
            == DecodeInstances(rest, n, LoadedInstance(g, slot, objectIDs, st))
  {
    if slot.None? {
      assert EncodeInstanceSlot(g, slot, objectIDs) + rest == [Int(0)] + rest;
      ReadsWhatWasWritten(Int(0), rest);
    } else {
      var inst := g.instances[slot.value];
      var id := GetID(inst.obj, objectIDs);
      assert EncodeInstanceSlot(g, slot, objectIDs) + rest == [Int(1)] + ([Field(inst.xfm)] + ([Int(id)] + rest));
      ReadsWhatWasWritten(Int(1), [Field(inst.xfm)] + ([Int(id)] + rest));
      ReadsWhatWasWritten(Field(inst.xfm), [Int(id)] + rest);
      ReadsWhatWasWritten(Int(id), rest);
    }
  }

  /** Loading the instance list consumes exactly what saving it wrote. */
  lemma {:induction false} InstancesRoundTrip(g: Graph, slots: seq<Option<nat>>, objectIDs: map<nat, int>,
                                              st: LoadState, rest: seq<Token>)
    requires InstancesInTable(g, slots, objectIDs, |st.graph.objects|)
    ensures DecodeInstances(EncodeInstances(g, slots, objectIDs) + rest, |slots|, st)
            == Ok(Parsed(LoadedInstances(g, slots, objectIDs, st), rest))
    decreases |slots|
  {
    if slots == [] {
      EmptyPrefix(EncodeInstances(g, slots, objectIDs), rest);
    } else {
      InstancesInTableTail(g, slots, objectIDs, |st.graph.objects|);
      var tail := EncodeInstances(g, slots[1..], objectIDs) + rest;
      assert EncodeInstances(g, slots, objectIDs) + rest == EncodeInstanceSlot(g, slots[0], objectIDs) + tail;
      InstanceSlotRoundTrip(g, slots[0], objectIDs, |slots| - 1, st, tail);
      InstancesRoundTrip(g, slots[1..], objectIDs, LoadedInstance(g, slots[0], objectIDs, st), rest);
    }
  }
}
