/** What `Scene::save` uses of `SerializedScene`: for textures, materials
    and objects, a list of the distinct nodes of the scene (by identity) and
    a registry from node to its position in that list. How the list is
    gathered is not part of this model; only its contract is. */
module Serialized {
  import opened Wrappers
  import opened SceneGraph
  import opened Materials

  datatype SerializedScene = SerializedScene(
    textures: seq<Option<nat>>, textureIDs: map<Option<nat>, int>,
    materials: seq<nat>, materialIDs: map<nat, int>,
    objects: seq<nat>, objectIDs: map<nat, int>)

  /** `list` holds no node twice and `ids` maps exactly the nodes of `list`
      to their positions: the IDs are the dense range `[0, |list|)`. */
  ghost predicate Indexes<K(!new)>(list: seq<K>, ids: map<K, int>) {
    && (forall i, j :: 0 <= i < j < |list| ==> list[i] != list[j])
    && (forall k :: k in ids <==> k in list)
    && (forall i :: 0 <= i < |list| ==> list[i] in ids && ids[list[i]] == i)
  }

  /** The three registries index their lists, and every listed node is a
      node of the graph. */
  ghost predicate Consistent(ser: SerializedScene, g: Graph) {
    && Indexes(ser.textures, ser.textureIDs)
    && Indexes(ser.materials, ser.materialIDs)
    && Indexes(ser.objects, ser.objectIDs)
    && (forall i :: 0 <= i < |ser.textures| ==> TextureRefOk(g, ser.textures[i]))
    && (forall i :: 0 <= i < |ser.materials| ==> ser.materials[i] < |g.materials|)
    && (forall i :: 0 <= i < |ser.objects| ==> ser.objects[i] < |g.objects|)
  }

  /** The lists reach every node that the saved scene refers to: the object
      of each instance, the material of each mesh of a listed object, and
      the textures of each listed Disney material. */
  ghost predicate Complete(s: Scene, ser: SerializedScene)
    requires SceneOk(s)
  {
    && (forall k :: 0 <= k < |s.instances| && s.instances[k].Some? ==> ObjectOf(s, k) in ser.objects)
    && (forall i, p ::
          (&& 0 <= i < |ser.objects| && ser.objects[i] < |s.graph.objects|
           && 0 <= p < |s.graph.objects[ser.objects[i]].meshes|
           && s.graph.objects[ser.objects[i]].meshes[p].Some?
           && s.graph.objects[ser.objects[i]].meshes[p].value < |s.graph.meshes|) ==>
          s.graph.meshes[s.graph.objects[ser.objects[i]].meshes[p].value].material in ser.materials)
    && (forall i ::
          (&& 0 <= i < |ser.materials| && ser.materials[i] < |s.graph.materials|
           && s.graph.materials[ser.materials[i]].Disney?) ==>
          && s.graph.materials[ser.materials[i]].colorTexture in ser.textures
          && s.graph.materials[ser.materials[i]].alphaTexture in ser.textures)
  }

  /** `getID` gives the registered position of a node, and -1 exactly for a
      node the list does not hold. */
  lemma GetIDIsPosition<K(!new)>(list: seq<K>, ids: map<K, int>, key: K)
    requires Indexes(list, ids)
    ensures GetID(key, ids) == -1 <==> key !in list
    ensures key in list ==> 0 <= GetID(key, ids) < |list| && list[GetID(key, ids)] == key
  {
    if key in list {
      var i :| 0 <= i < |list| && list[i] == key;
      assert ids[key] == i;
    }
  }

  /** Distinct registered nodes get distinct IDs. */
  lemma GetIDInjective<K(!new)>(list: seq<K>, ids: map<K, int>, a: K, b: K)
    requires Indexes(list, ids)
    requires a in list && b in list
    ensures GetID(a, ids) == GetID(b, ids) <==> a == b
  {
    GetIDIsPosition(list, ids, a);
    GetIDIsPosition(list, ids, b);
  }
}
