/** What of a saved scene `Scene::load` gives back: the scene it rebuilds
    from a saved file, `Reloaded(s, ser, version)`, described node by node
    against the scene `s` that was saved. */
module Reload {
  import opened Wrappers
  import opened SceneGraph
  import opened Materials
  import opened Serialized
  import opened Format
  import opened RoundTrip
  import opened SaveLoad
  import opened ReloadFacts

  /** The texture table the loader builds: the saved texture list with each
      non-null entry renumbered to the fresh node loaded for it. */
  function LoadedTable(ser: SerializedScene): (r: seq<Option<nat>>)
    ensures |r| == |ser.textures|
  {
    Renumbered(ser.textures, 0)
  }

  /** The texture section builds the loaded table and the texture arena
      from nothing. */
  lemma TexturesStage(s: Scene, ser: SerializedScene, version: int)
    requires Reloadable(s, ser)
    ensures TexturesLoaded(s, ser, version).textures == LoadedTable(ser)
    ensures TexturesLoaded(s, ser, version).graph.textures == TexturesAt(s.graph, ser.textures)
    ensures TexturesLoaded(s, ser, version).graph == EmptyGraph.(textures := TexturesAt(s.graph, ser.textures))
    ensures TexturesLoaded(s, ser, version).meshes == [] && TexturesLoaded(s, ser, version).instances == []
    ensures TexturesLoaded(s, ser, version).envMapLight == None
  {
    TexturesLoadedClosed(s.graph, ser.textures, InitialState(version));
  }

  /** The material section starts from an empty material arena and the
      loaded texture table. */
  lemma MaterialsStage(s: Scene, ser: SerializedScene, version: int)
    requires Reloadable(s, ser)
    ensures forall i :: 0 <= i < |ser.materials| ==> ser.materials[i] < |s.graph.materials|
    ensures forall i :: 0 <= i < |ser.materials| ==>
              TexturesInTable(s.graph.materials[ser.materials[i]], ser.textureIDs, |ser.textures|)
    ensures var st := LightsLoaded(s, ser, version);
            && st.graph.materials == [] && st.textures == LoadedTable(ser)
            && MaterialsLoaded(s, ser, version)
               == LoadedMaterials(s.graph, ser.materials, ser.textureIDs, st)
  {
    RegistriesCoverScene(s, ser);
    TexturesStage(s, ser, version);
  }

  /** The object section starts from empty mesh and object arenas. */
  lemma ObjectsStage(s: Scene, ser: SerializedScene, version: int)
    requires Reloadable(s, ser)
    ensures forall i :: 0 <= i < |ser.objects| ==> ser.objects[i] < |s.graph.objects|
    ensures ObjectsInTable(s.graph, ser.objects, ser.materialIDs, |ser.materials|)
    ensures var st := MaterialsLoaded(s, ser, version);
            && |st.graph.materials| == |ser.materials|
            && st.graph.meshes == [] && st.graph.objects == [] && st.graph.instances == []
            && st.instances == []
            && ObjectsLoaded(s, ser, version) == LoadedObjects(s.graph, ser.objects, ser.materialIDs, st)
  {
    RegistriesCoverScene(s, ser);
    MaterialsStage(s, ser, version);
  }

  /** The instance section starts from an empty instance arena, and its
      result is the reloaded scene. */
  lemma InstancesStage(s: Scene, ser: SerializedScene, version: int)
    requires Reloadable(s, ser)
    ensures InstancesInTable(s.graph, s.instances, ser.objectIDs, |ser.objects|)
    ensures var st := ObjectsLoaded(s, ser, version);
            && |st.graph.objects| == |ser.objects| && st.graph.instances == [] && st.instances == []
            && InstancesLoaded(s, ser, version) == LoadedInstances(s.graph, s.instances, ser.objectIDs, st)
  {
    RegistriesCoverScene(s, ser);
    ObjectsStage(s, ser, version);
  }

  // ---------------------------------------------------------------------
  // Instances
  // ---------------------------------------------------------------------

  /** Every instance slot comes back, null exactly where it was null, and a
      non-null slot as a node with the same transform whose object is the
      reloaded copy (by registry ID) of the object it placed. */
  lemma ReloadedInstances(s: Scene, ser: SerializedScene, version: int)
    requires Reloadable(s, ser)
    ensures var r := Reloaded(s, ser, version);
            && |r.instances| == |s.instances|
            && |r.graph.objects| == |ser.objects|
            && (forall k :: 0 <= k < |s.instances| ==> (r.instances[k].None? <==> s.instances[k].None?))
            && (forall k :: 0 <= k < |s.instances| && s.instances[k].Some? ==>
                  && r.instances[k].Some? && r.instances[k].value < |r.graph.instances|
                  && r.graph.instances[r.instances[k].value].xfm == s.graph.instances[s.instances[k].value].xfm
                  && r.graph.instances[r.instances[k].value].obj == GetID(ObjectOf(s, k), ser.objectIDs)
                  && 0 <= GetID(ObjectOf(s, k), ser.objectIDs) < |r.graph.objects|
                  && ser.objects[GetID(ObjectOf(s, k), ser.objectIDs)] == ObjectOf(s, k))
  {
    var g := s.graph;
    InstancesClosed(s, ser, version);
    var r := Reloaded(s, ser, version);
    SlotsReloaded(g, s.instances, ser.objectIDs, |ser.objects|, r.instances, r.graph.instances);
    assert Complete(s, ser);
    PlacedObjectsRegistered(s, ser);
  }

  /** The reloaded instance slots and arena in closed form. */
  lemma InstancesClosed(s: Scene, ser: SerializedScene, version: int)
    requires Reloadable(s, ser)
    ensures InstancesInTable(s.graph, s.instances, ser.objectIDs, |ser.objects|)
    ensures var r := Reloaded(s, ser, version);
            && r.instances == Renumbered(s.instances, 0)
            && r.graph.instances == InstancesAt(s.graph, s.instances, ser.objectIDs)
            && |r.graph.objects| == |ser.objects|
  {
    InstancesStage(s, ser, version);
    InstancesLoadedClosed(s.graph, s.instances, ser.objectIDs, ObjectsLoaded(s, ser, version));
  }

  /** The object each instance places is registered, at its ID. */
  lemma PlacedObjectsRegistered(s: Scene, ser: SerializedScene)
    requires SceneOk(s) && Indexes(ser.objects, ser.objectIDs)
    requires forall k :: 0 <= k < |s.instances| && s.instances[k].Some? ==> ObjectOf(s, k) in ser.objects
    ensures forall k :: 0 <= k < |s.instances| && s.instances[k].Some? ==>
              && 0 <= GetID(ObjectOf(s, k), ser.objectIDs) < |ser.objects|
              && ser.objects[GetID(ObjectOf(s, k), ser.objectIDs)] == ObjectOf(s, k)
  {
    forall k | 0 <= k < |s.instances| && s.instances[k].Some?
      ensures 0 <= GetID(ObjectOf(s, k), ser.objectIDs) < |ser.objects|
      ensures ser.objects[GetID(ObjectOf(s, k), ser.objectIDs)] == ObjectOf(s, k)
    {
      GetIDIsPosition(ser.objects, ser.objectIDs, ObjectOf(s, k));
    }
  }

  /** The instance slots and arena a load builds from `slots`, slot by slot. */
  lemma SlotsReloaded(g: Graph, slots: seq<Option<nat>>, objectIDs: map<nat, int>, n: nat,
                      ri: seq<Option<nat>>, gi: seq<Instance>)
    requires InstancesInTable(g, slots, objectIDs, n)
    requires ri == Renumbered(slots, 0) && gi == InstancesAt(g, slots, objectIDs)
    ensures |ri| == |slots|
    ensures forall k :: 0 <= k < |slots| ==> (ri[k].None? <==> slots[k].None?)
    ensures forall k :: 0 <= k < |slots| && slots[k].Some? ==>
              && ri[k].Some? && ri[k].value < |gi|
              && gi[ri[k].value]
                 == Instance(g.instances[slots[k].value].xfm, GetID(g.instances[slots[k].value].obj, objectIDs))
  {
    InstancesAtPresent(g, slots, objectIDs);
    RenumberedNulls(slots, 0);
    RenumberedPositions(slots, 0);
  }

  /** Each non-null slot gets a node of its own: two slots that shared an
      instance node come back as two nodes. */
  lemma ReloadedInstancesFresh(s: Scene, ser: SerializedScene, version: int, k1: nat, k2: nat)
    requires Reloadable(s, ser)
    requires k1 < |s.instances| && k2 < |s.instances| && s.instances[k1].Some? && s.instances[k2].Some?
    ensures var r := Reloaded(s, ser, version);
            k1 < |r.instances| && k2 < |r.instances| && (r.instances[k1] == r.instances[k2] <==> k1 == k2)
  {
    InstancesClosed(s, ser, version);
    RenumberedDistinct(s.instances, Reloaded(s, ser, version).instances, k1, k2);
  }

  /** Renumbering gives distinct non-null slots distinct handles. */
  lemma RenumberedDistinct(slots: seq<Option<nat>>, ri: seq<Option<nat>>, k1: nat, k2: nat)
    requires ri == Renumbered(slots, 0)
    requires k1 < |slots| && k2 < |slots| && slots[k1].Some? && slots[k2].Some?
    ensures k1 < |ri| && k2 < |ri| && (ri[k1] == ri[k2] <==> k1 == k2)
  {
    RenumberedIncreasing(slots, 0);
    RenumberedPositions(slots, 0);
  }

  /** Two instances place the same reloaded object exactly when they placed
      the same object before: object sharing survives the trip. */
  lemma ReloadedObjectSharing(s: Scene, ser: SerializedScene, version: int, k1: nat, k2: nat)
    requires Reloadable(s, ser)
    requires k1 < |s.instances| && k2 < |s.instances| && s.instances[k1].Some? && s.instances[k2].Some?
    ensures var r := Reloaded(s, ser, version);
            && k1 < |r.instances| && k2 < |r.instances| && r.instances[k1].Some? && r.instances[k2].Some?
            && r.instances[k1].value < |r.graph.instances| && r.instances[k2].value < |r.graph.instances|
            && (r.graph.instances[r.instances[k1].value].obj == r.graph.instances[r.instances[k2].value].obj
                <==> ObjectOf(s, k1) == ObjectOf(s, k2))
  {
    ReloadedInstances(s, ser, version);
    assert Complete(s, ser);
    GetIDInjective(ser.objects, ser.objectIDs, ObjectOf(s, k1), ObjectOf(s, k2));
  }

  // ---------------------------------------------------------------------
  // Objects and meshes
  // ---------------------------------------------------------------------

  /** One object per registered object, in registry order, each holding
      fresh copies of the non-null meshes of the saved object's slots, in
      order, with materials renumbered by the material registry. */
  lemma ReloadedObjects(s: Scene, ser: SerializedScene, version: int)
    requires Reloadable(s, ser)
    ensures var r := Reloaded(s, ser, version);
            && |r.graph.objects| == |ser.objects|
            && forall i :: 0 <= i < |ser.objects| ==>
                 HoldsMeshes(r.graph, r.graph.objects[i], s.graph, s.graph.objects[ser.objects[i]].meshes,
                             ser.materialIDs)
  {
    var g := s.graph;
    ObjectsStage(s, ser, version);
    InstancesStage(s, ser, version);
    var st := MaterialsLoaded(s, ser, version);
    ObjectsLoadedHold(g, ser.objects, ser.materialIDs, st);
    var lg := ObjectsLoaded(s, ser, version).graph;
    var r := Reloaded(s, ser, version);
    assert r.graph.meshes == lg.meshes && r.graph.objects == lg.objects;
    forall i | 0 <= i < |ser.objects|
      ensures HoldsMeshes(r.graph, r.graph.objects[i], g, g.objects[ser.objects[i]].meshes, ser.materialIDs)
    {
      HoldsMeshesGrow(lg, r.graph, lg.objects[i], g, g.objects[ser.objects[i]].meshes, ser.materialIDs);
    }
  }

  // ---------------------------------------------------------------------
  // Materials and textures
  // ---------------------------------------------------------------------

  /** One material per registered material, in registry order, each the
      saved material with a Disney material's texture references read
      through the loaded texture table. */
  lemma ReloadedMaterials(s: Scene, ser: SerializedScene, version: int)
    requires Reloadable(s, ser)
    ensures forall j :: 0 <= j < |ser.materials| ==>
              TexturesInTable(s.graph.materials[ser.materials[j]], ser.textureIDs, |ser.textures|)
    ensures var r := Reloaded(s, ser, version);
            && |r.graph.materials| == |ser.materials|
            && forall j :: 0 <= j < |ser.materials| ==>
                 r.graph.materials[j] == Relocated(s.graph.materials[ser.materials[j]], ser.textureIDs, LoadedTable(ser))
  {
    MaterialsStage(s, ser, version);
    ObjectsStage(s, ser, version);
    InstancesStage(s, ser, version);
    MaterialsLoadedClosed(s.graph, ser.materials, ser.textureIDs, LightsLoaded(s, ser, version));
  }

  /** The texture arena of the reloaded scene: the non-null listed textures,
      in list order, then the environment light's texture, if any. */
  lemma ReloadedTextures(s: Scene, ser: SerializedScene, version: int)
    requires Reloadable(s, ser)
    ensures var r := Reloaded(s, ser, version);
            r.graph.textures == TexturesAt(s.graph, ser.textures)
              + (if s.envMapLight.None? then [] else [s.graph.textures[s.envMapLight.value.texture.value]])
  {
    TexturesStage(s, ser, version);
    MaterialsStage(s, ser, version);
    ObjectsStage(s, ser, version);
    InstancesStage(s, ser, version);
  }

  /** A texture reference, read through the loaded table: null stays null,
      and a non-null one names a node with the saved texture's content. */
  lemma ReloadedTextureRef(s: Scene, ser: SerializedScene, version: int, t: Option<nat>)
    requires Reloadable(s, ser) && t in ser.textures
    ensures 0 <= GetID(t, ser.textureIDs) < |ser.textures|
    ensures var lt := LoadedTable(ser)[GetID(t, ser.textureIDs)];
            && (lt.None? <==> t.None?)
            && (t.Some? ==>
                  && lt.value < |Reloaded(s, ser, version).graph.textures|
                  && Reloaded(s, ser, version).graph.textures[lt.value] == s.graph.textures[t.value])
  {
    var i := GetID(t, ser.textureIDs);
    GetIDIsPosition(ser.textures, ser.textureIDs, t);
    RenumberedNulls(ser.textures, 0);
    RenumberedPositions(ser.textures, 0);
    TexturesAtPresent(s.graph, ser.textures);
    ReloadedTextures(s, ser, version);
  }

  /** Two non-null texture references name the same loaded node exactly
      when they named the same node before: texture sharing survives. */
  lemma ReloadedTextureSharing(ser: SerializedScene, t1: Option<nat>, t2: Option<nat>)
    requires Indexes(ser.textures, ser.textureIDs)
    requires t1 in ser.textures && t2 in ser.textures && t1.Some? && t2.Some?
    ensures 0 <= GetID(t1, ser.textureIDs) < |ser.textures| && 0 <= GetID(t2, ser.textureIDs) < |ser.textures|
    ensures LoadedTable(ser)[GetID(t1, ser.textureIDs)] == LoadedTable(ser)[GetID(t2, ser.textureIDs)]
            <==> t1 == t2
  {
    GetIDIsPosition(ser.textures, ser.textureIDs, t1);
    GetIDIsPosition(ser.textures, ser.textureIDs, t2);
    GetIDInjective(ser.textures, ser.textureIDs, t1, t2);
    RenumberedIncreasing(ser.textures, 0);
    RenumberedPositions(ser.textures, 0);
  }

  /** Every mesh of a reloaded object uses the reloaded copy of the saved
      mesh's material. */
  lemma ReloadedMeshMaterial(s: Scene, ser: SerializedScene, version: int, i: nat, p: nat)
    requires Reloadable(s, ser)
    requires i < |ser.objects| && p < |Present(s.graph.objects[ser.objects[i]].meshes)|
    ensures Present(s.graph.objects[ser.objects[i]].meshes)[p] < |s.graph.meshes|
    ensures var r := Reloaded(s, ser, version);
            var o := r.graph.objects[i];
            var m := s.graph.meshes[Present(s.graph.objects[ser.objects[i]].meshes)[p]].material;
            && p < |o.meshes| && o.meshes[p].Some? && o.meshes[p].value < |r.graph.meshes|
            && 0 <= r.graph.meshes[o.meshes[p].value].material < |r.graph.materials|
            && m < |s.graph.materials|
            && TexturesInTable(s.graph.materials[m], ser.textureIDs, |ser.textures|)
            && r.graph.materials[r.graph.meshes[o.meshes[p].value].material]
               == Relocated(s.graph.materials[m], ser.textureIDs, LoadedTable(ser))
  {
    var g := s.graph;
    ReloadedObjects(s, ser, version);
    ReloadedMaterials(s, ser, version);
    var slots := g.objects[ser.objects[i]].meshes;
    var r := Reloaded(s, ser, version);
    assert HoldsMeshes(r.graph, r.graph.objects[i], g, slots, ser.materialIDs);
    var m := g.meshes[Present(slots)[p]].material;
    var id := GetID(m, ser.materialIDs);
    assert r.graph.meshes[r.graph.objects[i].meshes[p].value].material == id;
    assert GraphOk(g);
    assert m in ser.materials by {
      PresentIn(slots, p);
    }
    GetIDIsPosition(ser.materials, ser.materialIDs, m);
  }

  /** Every handle in `Present(slots)` comes from a non-null slot. */
  lemma {:induction false} PresentIn(slots: seq<Option<nat>>, p: nat)
    requires p < |Present(slots)|
    ensures exists q :: 0 <= q < |slots| && slots[q] == Some(Present(slots)[p])
    decreases |slots|
  {
    if slots[0].None? {
      PresentIn(slots[1..], p);
      var q :| 0 <= q < |slots[1..]| && slots[1..][q] == Some(Present(slots[1..])[p]);
      assert slots[q + 1] == slots[1..][q];
    } else if p > 0 {
      PresentIn(slots[1..], p - 1);
      var q :| 0 <= q < |slots[1..]| && slots[1..][q] == Some(Present(slots[1..])[p - 1]);
      assert slots[q + 1] == slots[1..][q];
    } else {
      assert slots[0] == Some(Present(slots)[0]);
    }
  }

  // ---------------------------------------------------------------------
  // Lights
  // ---------------------------------------------------------------------

  /** The quad and directional lights come back as saved; the environment
      light keeps its transform, and its texture becomes a node of its own
      with the saved content. */
  lemma ReloadedLights(s: Scene, ser: SerializedScene, version: int)
    requires Reloadable(s, ser)
    ensures var r := Reloaded(s, ser, version);
            && r.quadLights == s.quadLights && r.dirLights == s.dirLights
            && (r.envMapLight.None? <==> s.envMapLight.None?)
            && (s.envMapLight.Some? ==>
                  && r.envMapLight.value.transform == s.envMapLight.value.transform
                  && r.envMapLight.value.texture.Some?
                  && r.envMapLight.value.texture.value < |r.graph.textures|
                  && r.graph.textures[r.envMapLight.value.texture.value]
                     == s.graph.textures[s.envMapLight.value.texture.value])
  {
    ReloadedTextures(s, ser, version);
  }
}
