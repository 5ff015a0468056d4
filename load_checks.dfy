/** What `Scene::load` guarantees about any scene it accepts, whatever the
    file: the ID checks of the mesh, instance and Disney readers keep every
    handle inside its arena, so an accepted file always gives a well-formed
    scene; and a generation 11 file gives Disney materials only. */
module LoadChecks {
  import opened Wrappers
  import opened Stream
  import opened SceneGraph
  import opened Materials
  import opened Format

  /** A variant's `read` keeps the variant it was given, and a Disney
      material only takes texture references from the loaded table. */
  lemma ReadFieldsShape(proto: Material, ts: seq<Token>, textures: seq<Option<nat>>)
    requires !proto.Unsupported?
    ensures var r := ReadFields(proto, ts, textures);
            r.Ok? ==> && SameVariant(proto, r.value.value)
                      && (r.value.value.Disney? ==>
                            r.value.value.colorTexture in textures && r.value.value.alphaTexture in textures)
  {
  }

  /** Everything a partial load has built is well formed: each handle of
      the arenas, of the texture table, of the object being read and of the
      instance slots names a node, and a generation 11 load holds Disney
      materials only. */
  ghost predicate Built(st: LoadState) {
    && GraphOk(st.graph)
    && (forall i :: 0 <= i < |st.textures| ==> TextureRefOk(st.graph, st.textures[i]))
    && ObjectOk(st.graph, Object(st.meshes))
    && (forall k :: 0 <= k < |st.instances| && st.instances[k].Some? ==>
          st.instances[k].value < |st.graph.instances|)
    && (st.envMapLight.Some? ==> TextureRefOk(st.graph, st.envMapLight.value.texture))
    && (st.version == 11 ==> forall h :: 0 <= h < |st.graph.materials| ==> st.graph.materials[h].Disney?)
  }

  lemma BuiltScene(st: LoadState)
    requires Built(st)
    ensures SceneOk(st.Scene())
  {
  }

  // Each way a load extends what it has built keeps it well formed.

  lemma BuiltWithNullTexture(st: LoadState)
    requires Built(st)
    ensures Built(st.(textures := st.textures + [None]))
  {
  }

  lemma BuiltWithTexture(st: LoadState, t: Texture)
    requires Built(st)
    ensures Built(st.WithTexture(t))
  {
    var st1 := st.WithTexture(t);
    assert forall h :: 0 <= h < |st.graph.materials| ==> MaterialOk(st1.graph, st.graph.materials[h]);
    assert forall h :: 0 <= h < |st.graph.objects| ==> ObjectOk(st1.graph, st.graph.objects[h]);
  }

  lemma BuiltWithMaterial(st: LoadState, m: Material)
    requires Built(st) && MaterialOk(st.graph, m) && (st.version == 11 ==> m.Disney?)
    ensures Built(st.WithMaterial(m))
  {
    var st1 := st.WithMaterial(m);
    assert forall h :: 0 <= h < |st.graph.materials| ==> MaterialOk(st1.graph, st.graph.materials[h]);
    assert forall h :: 0 <= h < |st.graph.objects| ==> ObjectOk(st1.graph, st.graph.objects[h]);
  }

  lemma BuiltWithMesh(st: LoadState, m: Mesh)
    requires Built(st) && m.material < |st.graph.materials|
    ensures Built(st.WithMesh(m))
  {
    var st1 := st.WithMesh(m);
    assert forall h :: 0 <= h < |st.graph.materials| ==> MaterialOk(st1.graph, st.graph.materials[h]);
    assert forall h :: 0 <= h < |st.graph.objects| ==> ObjectOk(st1.graph, st.graph.objects[h]);
    assert ObjectOk(st1.graph, Object(st.meshes));
  }

  lemma BuiltWithObject(st: LoadState)
    requires Built(st)
    ensures Built(st.WithObject()) && Built(st.(meshes := []))
  {
    var st1 := st.WithObject();
    assert forall h :: 0 <= h < |st.graph.materials| ==> MaterialOk(st1.graph, st.graph.materials[h]);
    assert forall h :: 0 <= h < |st.graph.objects| ==> ObjectOk(st1.graph, st.graph.objects[h]);
  }

  lemma BuiltWithNullInstance(st: LoadState)
    requires Built(st)
    ensures Built(st.(instances := st.instances + [None]))
  {
  }

  lemma BuiltWithInstance(st: LoadState, i: Instance)
    requires Built(st) && i.obj < |st.graph.objects|
    ensures Built(st.WithInstance(i))
  {
    var st1 := st.WithInstance(i);
    assert forall h :: 0 <= h < |st.graph.materials| ==> MaterialOk(st1.graph, st.graph.materials[h]);
    assert forall h :: 0 <= h < |st.graph.objects| ==> ObjectOk(st1.graph, st.graph.objects[h]);
  }

  lemma {:induction false} TexturesBuild(ts: seq<Token>, n: nat, st: LoadState)
    requires Built(st)
    ensures var r := DecodeTextures(ts, n, st);
            r.Ok? ==> Built(r.value.value) && r.value.value.version == st.version
    decreases n
  {
    if n > 0 {
      var valid := ParseInt(ts);
      if valid.Ok? {
        if valid.value.value == 0 {
          BuiltWithNullTexture(st);
          TexturesBuild(valid.value.rest, n - 1, st.(textures := st.textures + [None]));
        } else {
          var tex := DecodeTexture(valid.value.rest);
          if tex.Ok? {
            BuiltWithTexture(st, tex.value.value);
            TexturesBuild(tex.value.rest, n - 1, st.WithTexture(tex.value.value));
          }
        }
      }
    }
  }

  lemma LightsBuild(ts: seq<Token>, st: LoadState)
    requires Built(st)
    ensures var r := DecodeLights(ts, st);
            r.Ok? ==> Built(r.value.value) && r.value.value.version == st.version
  {
  }

  /** A material read against the loaded table is well formed, and Disney
      in a generation 11 load. */
  lemma MaterialBuilds(ts: seq<Token>, st: LoadState)
    requires Built(st)
    ensures var r := DecodeMaterial(ts, st);
            r.Ok? ==> && MaterialOk(st.graph, r.value.value)
                      && (st.version == 11 ==> r.value.value.Disney?)
  {
    var tag := if st.version == 11 then Ok(Parsed(DISNEY, ts)) else ParseInt(ts);
    if tag.Ok? {
      var proto := CreateMaterialFromTag(tag.value.value);
      if proto.Ok? {
        ReadFieldsShape(proto.value, tag.value.rest, st.textures);
      }
    }
  }

  lemma {:induction false} MaterialsBuild(ts: seq<Token>, n: nat, st: LoadState)
    requires Built(st)
    ensures var r := DecodeMaterials(ts, n, st);
            r.Ok? ==> Built(r.value.value) && r.value.value.version == st.version
    decreases n
  {
    if n > 0 {
      var mat := DecodeMaterial(ts, st);
      if mat.Ok? {
        MaterialBuilds(ts, st);
        BuiltWithMaterial(st, mat.value.value);
        MaterialsBuild(mat.value.rest, n - 1, st.WithMaterial(mat.value.value));
      }
    }
  }

  /** A mesh is only accepted with the ID of a loaded material. */
  lemma MeshChecked(ts: seq<Token>, st: LoadState)
    ensures DecodeMesh(ts, st).Ok? ==> DecodeMesh(ts, st).value.value.material < |st.graph.materials|
  {
  }

  /** A mesh that was read keeps the load state well formed. */
  lemma MeshBuilds(ts: seq<Token>, st: LoadState)
    requires Built(st)
    ensures DecodeMesh(ts, st).Ok? ==> Built(st.WithMesh(DecodeMesh(ts, st).value.value))
  {
    if DecodeMesh(ts, st).Ok? {
      MeshChecked(ts, st);
      BuiltWithMesh(st, DecodeMesh(ts, st).value.value);
    }
  }

  lemma {:induction false} MeshesBuild(ts: seq<Token>, m: nat, st: LoadState)
    requires Built(st)
    ensures var r := DecodeMeshes(ts, m, st);
            r.Ok? ==> Built(r.value.value) && r.value.value.version == st.version
    decreases m
  {
    if m > 0 {
      var valid := ParseInt(ts);
      if valid.Ok? {
        if valid.value.value == 0 {
          MeshesBuild(valid.value.rest, m - 1, st);
        } else {
          var mesh := DecodeMesh(valid.value.rest, st);
          if mesh.Ok? {
            MeshBuilds(valid.value.rest, st);
            MeshesBuild(mesh.value.rest, m - 1, st.WithMesh(mesh.value.value));
          }
        }
      }
    }
  }

  lemma {:induction false} ObjectsBuild(ts: seq<Token>, n: nat, st: LoadState)
    requires Built(st)
    ensures var r := DecodeObjects(ts, n, st);
            r.Ok? ==> Built(r.value.value) && r.value.value.version == st.version
    decreases n
  {
    if n > 0 {
      var numMeshes := ParseCount(ts);
      if numMeshes.Ok? {
        BuiltWithObject(st);
        MeshesBuild(numMeshes.value.rest, numMeshes.value.value, st.(meshes := []));
        var meshes := DecodeMeshes(numMeshes.value.rest, numMeshes.value.value, st.(meshes := []));
        if meshes.Ok? {
          BuiltWithObject(meshes.value.value);
          assert DecodeObjects(ts, n, st) == DecodeObjects(meshes.value.rest, n - 1, meshes.value.value.WithObject());
          ObjectsBuild(meshes.value.rest, n - 1, meshes.value.value.WithObject());
        }
      }
    }
  }

  /** An instance is only accepted with the ID of a loaded object. */
  lemma InstanceChecked(ts: seq<Token>, st: LoadState)
    ensures DecodeInstance(ts, st).Ok? ==> DecodeInstance(ts, st).value.value.obj < |st.graph.objects|
  {
  }

  lemma {:induction false} InstancesBuild(ts: seq<Token>, n: nat, st: LoadState)
    requires Built(st)
    ensures var r := DecodeInstances(ts, n, st);
            r.Ok? ==> Built(r.value.value) && r.value.value.version == st.version
    decreases n
  {
    if n > 0 {
      var valid := ParseInt(ts);
      if valid.Ok? {
        if valid.value.value == 0 {
          BuiltWithNullInstance(st);
          InstancesBuild(valid.value.rest, n - 1, st.(instances := st.instances + [None]));
        } else {
          var inst := DecodeInstance(valid.value.rest, st);
          InstanceChecked(valid.value.rest, st);
          if inst.Ok? {
            BuiltWithInstance(st, inst.value.value);
            InstancesBuild(inst.value.rest, n - 1, st.WithInstance(inst.value.value));
          }
        }
      }
    }
  }

  /** Every scene `Scene::load` accepts is well formed, whatever the file;
      one read from a generation 11 file has Disney materials only. */
  lemma LoadedScenesAreWellFormed(ts: seq<Token>)
    ensures Decode(ts).Ok? ==> SceneOk(Decode(ts).value)
    ensures Decode(ts).Ok? && ts != [] && ts[0] == Word(EXPECTED_MAGIC - 1) ==>
              forall h :: 0 <= h < |Decode(ts).value.graph.materials| ==> Decode(ts).value.graph.materials[h].Disney?
  {
    var magic := ParseWord(ts);
    if magic.Ok? && VersionOf(magic.value.value).Ok? && ParseCount(magic.value.rest).Ok? {
      var version := VersionOf(magic.value.value).value;
      var numTextures := ParseCount(magic.value.rest).value;
      TexturesBuild(numTextures.rest, numTextures.value, InitialState(version));
      var textures := DecodeTextures(numTextures.rest, numTextures.value, InitialState(version));
      if textures.Ok? {
        LightsBuild(textures.value.rest, textures.value.value);
        var lights := DecodeLights(textures.value.rest, textures.value.value);
        if lights.Ok? {
          FromMaterialsBuild(lights.value.rest, lights.value.value);
        }
      }
    }
  }

  lemma FromMaterialsBuild(ts: seq<Token>, st: LoadState)
    requires Built(st)
    ensures var r := DecodeFromMaterials(ts, st);
            r.Ok? ==> && SceneOk(r.value)
                      && (st.version == 11 ==> forall h :: 0 <= h < |r.value.graph.materials| ==> r.value.graph.materials[h].Disney?)
  {
    var numMaterials := ParseCount(ts);
    if numMaterials.Ok? {
      MaterialsBuild(numMaterials.value.rest, numMaterials.value.value, st);
      var materials := DecodeMaterials(numMaterials.value.rest, numMaterials.value.value, st);
      if materials.Ok? && ParseCount(materials.value.rest).Ok? {
        var numObjects := ParseCount(materials.value.rest).value;
        ObjectsBuild(numObjects.rest, numObjects.value, materials.value.value);
        var objects := DecodeObjects(numObjects.rest, numObjects.value, materials.value.value);
        if objects.Ok? && ParseCount(objects.value.rest).Ok? {
          var numInstances := ParseCount(objects.value.rest).value;
          InstancesBuild(numInstances.rest, numInstances.value, objects.value.value);
          var instances := DecodeInstances(numInstances.rest, numInstances.value, objects.value.value);
          if instances.Ok? {
            BuiltScene(instances.value.value);
          }
        }
      }
    }
  }

  /** The leading word decides the format generation: no token, another
      kind of token, or a word that is neither accepted magic, and the load
      fails at once. */
  lemma LeadingMagicDecides(ts: seq<Token>)
    ensures ts == [] ==> Decode(ts) == Err(Truncated)
    ensures ts != [] && !ts[0].Word? ==> Decode(ts) == Err(Malformed)
    ensures ts != [] && ts[0].Word? && ts[0].w != EXPECTED_MAGIC && ts[0].w != EXPECTED_MAGIC - 1 ==>
              Decode(ts) == Err(WrongMagic)
    ensures Decode(ts).Ok? ==> ts != [] && ts[0].Word? && (ts[0].w == EXPECTED_MAGIC || ts[0].w == EXPECTED_MAGIC - 1)
  {
  }
}
