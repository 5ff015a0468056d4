/** When `Scene::save` succeeds, and with which failure it stops. */
module SaveChecks {
  import opened Wrappers
  import opened Stream
  import opened SceneGraph
  import opened Materials
  import opened Serialized
  import opened Format

  /** A material the given format generation has a `write` for. */
  predicate Writable(m: Material, version: int) {
    if version == 11 then m.Disney? else !m.Unsupported?
  }

  lemma JoinOk(a: Result<seq<Token>, Error>, b: Result<seq<Token>, Error>)
    ensures Join(a, b).Ok? <==> a.Ok? && b.Ok?
    ensures a.Err? ==> Join(a, b) == Err(a.error)
    ensures a.Ok? && b.Err? ==> Join(a, b) == Err(b.error)
  {
  }

  /** The material list is written exactly when every listed material is a
      variant the generation can write. */
  lemma {:induction false} MaterialsSaveIff(g: Graph, hs: seq<nat>, textureIDs: map<Option<nat>, int>,
                                            version: int)
    requires forall i :: 0 <= i < |hs| ==> hs[i] < |g.materials|
    ensures EncodeMaterials(g, hs, textureIDs, version).Ok?
            <==> forall i :: 0 <= i < |hs| ==> Writable(g.materials[hs[i]], version)
    ensures EncodeMaterials(g, hs, textureIDs, version).Err? ==>
              EncodeMaterials(g, hs, textureIDs, version).error == UnsupportedMaterial
    decreases |hs|
  {
    if hs != [] {
      MaterialsSaveIff(g, hs[1..], textureIDs, version);
      JoinOk(EncodeMaterial(g.materials[hs[0]], textureIDs, version),
             EncodeMaterials(g, hs[1..], textureIDs, version));
      assert forall i :: 1 <= i < |hs| ==> hs[i] == hs[1..][i - 1];
    }
  }

  /** A mesh whose material the registry holds. */
  ghost predicate MeshRegistered(g: Graph, slot: Option<nat>, materialIDs: map<nat, int>)
    requires slot.Some? ==> slot.value < |g.meshes|
  {
    slot.Some? ==> GetID(g.meshes[slot.value].material, materialIDs) >= 0
  }

  /** An object's mesh slots are written exactly when each mesh's material
      is registered. */
  lemma {:induction false} MeshSlotsSaveIff(g: Graph, slots: seq<Option<nat>>, materialIDs: map<nat, int>)
    requires forall i :: 0 <= i < |slots| && slots[i].Some? ==> slots[i].value < |g.meshes|
    ensures EncodeMeshSlots(g, slots, materialIDs).Ok?
            <==> forall i :: 0 <= i < |slots| ==> MeshRegistered(g, slots[i], materialIDs)
    ensures EncodeMeshSlots(g, slots, materialIDs).Err? ==>
              EncodeMeshSlots(g, slots, materialIDs).error == UnregisteredMaterial
    decreases |slots|
  {
    if slots != [] {
      MeshSlotsSaveIff(g, slots[1..], materialIDs);
      JoinOk(EncodeMeshSlot(g, slots[0], materialIDs), EncodeMeshSlots(g, slots[1..], materialIDs));
      assert forall i :: 1 <= i < |slots| ==> slots[i] == slots[1..][i - 1];
    }
  }

  /** The object list is written exactly when every mesh of every listed
      object has a registered material. */
  lemma {:induction false} ObjectsSaveIff(g: Graph, os: seq<nat>, materialIDs: map<nat, int>)
    requires GraphOk(g) && forall i :: 0 <= i < |os| ==> os[i] < |g.objects|
    ensures EncodeObjects(g, os, materialIDs).Ok?
            <==> forall i, p :: 0 <= i < |os| && 0 <= p < |g.objects[os[i]].meshes| ==>
                   MeshRegistered(g, g.objects[os[i]].meshes[p], materialIDs)
    ensures EncodeObjects(g, os, materialIDs).Err? ==>
              EncodeObjects(g, os, materialIDs).error == UnregisteredMaterial
    decreases |os|
  {
    if os != [] {
      assert ObjectOk(g, g.objects[os[0]]);
      ObjectsSaveIff(g, os[1..], materialIDs);
      MeshSlotsSaveIff(g, g.objects[os[0]].meshes, materialIDs);
      JoinOk(Ok([Count(|g.objects[os[0]].meshes|)]), EncodeMeshSlots(g, g.objects[os[0]].meshes, materialIDs));
      JoinOk(EncodeObject(g, os[0], materialIDs), EncodeObjects(g, os[1..], materialIDs));
      assert forall i :: 1 <= i < |os| ==> os[i] == os[1..][i - 1];
    }
  }

  /** The whole save succeeds exactly when the environment light (if any)
      has a texture, every listed material can be written, and every mesh
      of a listed object has a registered material; the sections are
      written in order, so the first of these that fails names the error. */
  lemma SaveSucceedsIff(s: Scene, ser: SerializedScene, version: int)
    requires SceneOk(s) && Consistent(ser, s.graph) && (version == 11 || version == 12)
    ensures var g := s.graph;
            EncodeScene(s, ser, version).Ok?
            <==> && (s.envMapLight.Some? ==> s.envMapLight.value.texture.Some?)
                 && (forall i :: 0 <= i < |ser.materials| ==> Writable(g.materials[ser.materials[i]], version))
                 && (forall i, p :: 0 <= i < |ser.objects| && 0 <= p < |g.objects[ser.objects[i]].meshes| ==>
                       MeshRegistered(g, g.objects[ser.objects[i]].meshes[p], ser.materialIDs))
    ensures s.envMapLight.Some? && s.envMapLight.value.texture.None? ==>
              EncodeScene(s, ser, version) == Err(NullEnvMapTexture)
    ensures (s.envMapLight.Some? ==> s.envMapLight.value.texture.Some?)
            && EncodeMaterials(s.graph, ser.materials, ser.textureIDs, version).Err? ==>
              EncodeScene(s, ser, version) == Err(UnsupportedMaterial)
  {
    MaterialsSaveIff(s.graph, ser.materials, ser.textureIDs, version);
    ObjectsSaveIff(s.graph, ser.objects, ser.materialIDs);
  }

  /** Registries that reach the whole scene leave no mesh material
      unregistered. */
  lemma CompleteRegistriesSaveObjects(s: Scene, ser: SerializedScene)
    requires SceneOk(s) && Consistent(ser, s.graph) && Complete(s, ser)
    ensures EncodeObjects(s.graph, ser.objects, ser.materialIDs).Ok?
  {
    var g := s.graph;
    forall i, p | 0 <= i < |ser.objects| && 0 <= p < |g.objects[ser.objects[i]].meshes|
      ensures MeshRegistered(g, g.objects[ser.objects[i]].meshes[p], ser.materialIDs)
    {
      assert ObjectOk(g, g.objects[ser.objects[i]]);
      var slot := g.objects[ser.objects[i]].meshes[p];
      if slot.Some? {
        GetIDIsPosition(ser.materials, ser.materialIDs, g.meshes[slot.value].material);
      }
    }
    ObjectsSaveIff(g, ser.objects, ser.materialIDs);
  }

  /** `Scene::save` fails when the file cannot be opened, fails when the
      stream went bad, and otherwise writes a file of the current generation
      that starts and ends with the expected magic. */
  lemma SaveOutcome(s: Scene, ser: SerializedScene, opens: bool, good: bool)
    requires SceneOk(s) && Consistent(ser, s.graph)
    ensures !opens ==> SaveSpec(s, ser, opens, good) == Err(CannotOpen)
    ensures opens && EncodeScene(s, ser, FORMAT_VERSION).Err? ==>
              SaveSpec(s, ser, opens, good) == Err(EncodeScene(s, ser, FORMAT_VERSION).error)
    ensures opens && EncodeScene(s, ser, FORMAT_VERSION).Ok? && !good ==>
              SaveSpec(s, ser, opens, good) == Err(WriteFailed)
    ensures SaveSpec(s, ser, opens, good).Ok? ==>
              var f := SaveSpec(s, ser, opens, good).value;
              && opens && good && f == EncodeScene(s, ser, FORMAT_VERSION).value
              && |f| >= 2 && f[0] == Word(EXPECTED_MAGIC) && f[|f| - 1] == Word(EXPECTED_MAGIC)
  {
  }
}
