/** `Scene::save` and `Scene::load` as the loops they are: a writer and a
    reader stream, one method per section, each proved to write or read
    exactly what the section's function in `Format` says. */
module Store {
  import opened Wrappers
  import opened Stream
  import opened SceneGraph
  import opened Materials
  import opened Serialized
  import opened Format

  // ---------------------------------------------------------------------
  // Each section's encoding, one entry longer
  // ---------------------------------------------------------------------

  lemma JoinAssoc(a: Result<seq<Token>, Error>, b: Result<seq<Token>, Error>, c: Result<seq<Token>, Error>)
    ensures Join(Join(a, b), c) == Join(a, Join(b, c))
  {
    if a.Ok? && b.Ok? && c.Ok? {
      assert (a.value + b.value) + c.value == a.value + (b.value + c.value);
    }
  }

  /** One more entry of a list being written in order. */
  lemma JoinOnto(written: seq<Token>, w: Result<seq<Token>, Error>, rest: Result<seq<Token>, Error>)
    ensures w.Ok? ==> Join(Ok(written), w) == Ok(written + w.value)
    ensures w.Err? ==> Join(Join(Ok(written), w), rest) == Err(w.error)
  {
  }

  lemma Assoc(a: seq<Token>, b: seq<Token>, c: seq<Token>)
    ensures (a + b) + c == a + (b + c)
  {
  }

  lemma JoinNil(r: Result<seq<Token>, Error>)
    ensures Join(Ok([]), r) == r && Join(r, Ok([])) == r
  {
    if r.Ok? {
      assert [] + r.value == r.value == r.value + [];
    }
  }

  /** The texture list is written entry after entry: cut anywhere, it is
      the encoding of the first part followed by that of the rest. */
  lemma {:induction false} TexturesCut(g: Graph, slots: seq<Option<nat>>, k: nat)
    requires forall i :: 0 <= i < |slots| ==> TextureRefOk(g, slots[i])
    requires k <= |slots|
    ensures EncodeTextures(g, slots) == EncodeTextures(g, slots[..k]) + EncodeTextures(g, slots[k..])
    decreases k
  {
    if k == 0 {
      assert slots[..k] == [] && slots[k..] == slots;
    } else {
      TexturesCut(g, slots[1..], k - 1);
      assert slots[1..][..k - 1] == slots[..k][1..];
      assert slots[1..][k - 1..] == slots[k..];
    }
  }

  lemma TexturesStep(g: Graph, slots: seq<Option<nat>>, i: nat)
    requires forall i :: 0 <= i < |slots| ==> TextureRefOk(g, slots[i])
    requires i < |slots|
    ensures EncodeTextures(g, slots[..i + 1]) == EncodeTextures(g, slots[..i]) + EncodeTextureSlot(g, slots[i])
  {
    var s := slots[..i + 1];
    TexturesCut(g, s, i);
    assert s[..i] == slots[..i];
    var one := [slots[i]];
    assert s[i..] == one && one[1..] == [];
  }

  /** The material list, cut anywhere, joins the two parts' encodings. */
  lemma {:induction false} MaterialsCut(g: Graph, hs: seq<nat>, k: nat,
                                        textureIDs: map<Option<nat>, int>, version: int)
    requires forall i :: 0 <= i < |hs| ==> hs[i] < |g.materials|
    requires k <= |hs|
    ensures EncodeMaterials(g, hs, textureIDs, version)
            == Join(EncodeMaterials(g, hs[..k], textureIDs, version), EncodeMaterials(g, hs[k..], textureIDs, version))
    decreases k
  {
    if k == 0 {
      assert hs[..k] == [] && hs[k..] == hs;
      JoinNil(EncodeMaterials(g, hs, textureIDs, version));
    } else {
      MaterialsCut(g, hs[1..], k - 1, textureIDs, version);
      assert hs[1..][..k - 1] == hs[..k][1..];
      assert hs[1..][k - 1..] == hs[k..];
      JoinAssoc(EncodeMaterial(g.materials[hs[0]], textureIDs, version),
                EncodeMaterials(g, hs[1..][..k - 1], textureIDs, version),
                EncodeMaterials(g, hs[k..], textureIDs, version));
    }
  }

  lemma MaterialsStep(g: Graph, hs: seq<nat>, i: nat, textureIDs: map<Option<nat>, int>, version: int)
    requires forall i :: 0 <= i < |hs| ==> hs[i] < |g.materials|
    requires i < |hs|
    ensures EncodeMaterials(g, hs[..i + 1], textureIDs, version)
            == Join(EncodeMaterials(g, hs[..i], textureIDs, version), EncodeMaterial(g.materials[hs[i]], textureIDs, version))
    ensures EncodeMaterials(g, hs, textureIDs, version)
            == Join(EncodeMaterials(g, hs[..i + 1], textureIDs, version), EncodeMaterials(g, hs[i + 1..], textureIDs, version))
  {
    var s := hs[..i + 1];
    MaterialsCut(g, s, i, textureIDs, version);
    assert s[..i] == hs[..i];
    assert s[i..] == [hs[i]] && [hs[i]][1..] == [];
    JoinNil(EncodeMaterial(g.materials[hs[i]], textureIDs, version));
    MaterialsCut(g, hs, i + 1, textureIDs, version);
  }

  lemma MaterialsAdvance(g: Graph, hs: seq<nat>, i: nat, textureIDs: map<Option<nat>, int>, version: int,
                         written: seq<Token>, w: Result<seq<Token>, Error>)
    requires forall i :: 0 <= i < |hs| ==> hs[i] < |g.materials|
    requires i < |hs|
    requires EncodeMaterials(g, hs[..i], textureIDs, version) == Ok(written)
    requires w == EncodeMaterial(g.materials[hs[i]], textureIDs, version)
    ensures w.Ok? ==> EncodeMaterials(g, hs[..i + 1], textureIDs, version) == Ok(written + w.value)
    ensures w.Err? ==> EncodeMaterials(g, hs, textureIDs, version) == Err(w.error)
  {
    MaterialsStep(g, hs, i, textureIDs, version);
    JoinOnto(written, w, EncodeMaterials(g, hs[i + 1..], textureIDs, version));
  }

  /** An object's mesh slots, cut anywhere, join the two parts' encodings. */
  lemma {:induction false} MeshSlotsCut(g: Graph, slots: seq<Option<nat>>, k: nat, materialIDs: map<nat, int>)
    requires forall i :: 0 <= i < |slots| && slots[i].Some? ==> slots[i].value < |g.meshes|
    requires k <= |slots|
    ensures EncodeMeshSlots(g, slots, materialIDs)
            == Join(EncodeMeshSlots(g, slots[..k], materialIDs), EncodeMeshSlots(g, slots[k..], materialIDs))
    decreases k
  {
    if k == 0 {
      assert slots[..k] == [] && slots[k..] == slots;
      JoinNil(EncodeMeshSlots(g, slots, materialIDs));
    } else {
      MeshSlotsCut(g, slots[1..], k - 1, materialIDs);
      assert slots[1..][..k - 1] == slots[..k][1..];
      assert slots[1..][k - 1..] == slots[k..];
      JoinAssoc(EncodeMeshSlot(g, slots[0], materialIDs), EncodeMeshSlots(g, slots[1..][..k - 1], materialIDs),
                EncodeMeshSlots(g, slots[k..], materialIDs));
    }
  }

  lemma MeshSlotsStep(g: Graph, slots: seq<Option<nat>>, i: nat, materialIDs: map<nat, int>)
    requires forall i :: 0 <= i < |slots| && slots[i].Some? ==> slots[i].value < |g.meshes|
    requires i < |slots|
    ensures EncodeMeshSlots(g, slots[..i + 1], materialIDs)
            == Join(EncodeMeshSlots(g, slots[..i], materialIDs), EncodeMeshSlot(g, slots[i], materialIDs))
    ensures EncodeMeshSlots(g, slots, materialIDs)
            == Join(EncodeMeshSlots(g, slots[..i + 1], materialIDs), EncodeMeshSlots(g, slots[i + 1..], materialIDs))
  {
    var s := slots[..i + 1];
    MeshSlotsCut(g, s, i, materialIDs);
    assert s[..i] == slots[..i];
    var one := [slots[i]];
    assert s[i..] == one && one[1..] == [];
    JoinNil(EncodeMeshSlot(g, slots[i], materialIDs));
    MeshSlotsCut(g, slots, i + 1, materialIDs);
  }

  /** The object list, cut anywhere, joins the two parts' encodings. */
  lemma {:induction false} ObjectsCut(g: Graph, os: seq<nat>, k: nat, materialIDs: map<nat, int>)
    requires GraphOk(g) && forall i :: 0 <= i < |os| ==> os[i] < |g.objects|
    requires k <= |os|
    ensures EncodeObjects(g, os, materialIDs)
            == Join(EncodeObjects(g, os[..k], materialIDs), EncodeObjects(g, os[k..], materialIDs))
    decreases k
  {
    if k == 0 {
      assert os[..k] == [] && os[k..] == os;
      JoinNil(EncodeObjects(g, os, materialIDs));
    } else {
      ObjectsCut(g, os[1..], k - 1, materialIDs);
      assert os[1..][..k - 1] == os[..k][1..];
      assert os[1..][k - 1..] == os[k..];
      JoinAssoc(EncodeObject(g, os[0], materialIDs), EncodeObjects(g, os[1..][..k - 1], materialIDs),
                EncodeObjects(g, os[k..], materialIDs));
    }
  }

  lemma ObjectsStep(g: Graph, os: seq<nat>, i: nat, materialIDs: map<nat, int>)
    requires GraphOk(g) && forall i :: 0 <= i < |os| ==> os[i] < |g.objects|
    requires i < |os|
    ensures EncodeObjects(g, os[..i + 1], materialIDs)
            == Join(EncodeObjects(g, os[..i], materialIDs), EncodeObject(g, os[i], materialIDs))
    ensures EncodeObjects(g, os, materialIDs)
            == Join(EncodeObjects(g, os[..i + 1], materialIDs), EncodeObjects(g, os[i + 1..], materialIDs))
  {
    var s := os[..i + 1];
    ObjectsCut(g, s, i, materialIDs);
    assert s[..i] == os[..i];
    assert s[i..] == [os[i]] && [os[i]][1..] == [];
    JoinNil(EncodeObject(g, os[i], materialIDs));
    ObjectsCut(g, os, i + 1, materialIDs);
  }

  /** The instance slots, cut anywhere, are the two parts' encodings. */
  lemma {:induction false} InstancesCut(g: Graph, slots: seq<Option<nat>>, k: nat, objectIDs: map<nat, int>)
    requires forall i :: 0 <= i < |slots| && slots[i].Some? ==> slots[i].value < |g.instances|
    requires k <= |slots|
    ensures EncodeInstances(g, slots, objectIDs)
            == EncodeInstances(g, slots[..k], objectIDs) + EncodeInstances(g, slots[k..], objectIDs)
    decreases k
  {
    if k == 0 {
      assert slots[..k] == [] && slots[k..] == slots;
    } else {
      var head := EncodeInstanceSlot(g, slots[0], objectIDs);
      InstancesCut(g, slots[1..], k - 1, objectIDs);
      assert slots[1..][..k - 1] == slots[..k][1..];
      assert slots[1..][k - 1..] == slots[k..];
      Assoc(head, EncodeInstances(g, slots[1..][..k - 1], objectIDs), EncodeInstances(g, slots[k..], objectIDs));
    }
  }

  lemma InstancesStep(g: Graph, slots: seq<Option<nat>>, i: nat, objectIDs: map<nat, int>)
    requires forall i :: 0 <= i < |slots| && slots[i].Some? ==> slots[i].value < |g.instances|
    requires i < |slots|
    ensures EncodeInstances(g, slots[..i + 1], objectIDs)
            == EncodeInstances(g, slots[..i], objectIDs) + EncodeInstanceSlot(g, slots[i], objectIDs)
  {
    var s := slots[..i + 1];
    InstancesCut(g, s, i, objectIDs);
    assert s[..i] == slots[..i];
    var one := [slots[i]];
    assert s[i..] == one && one[1..] == [];
  }

  // ---------------------------------------------------------------------
  // Writing
  // ---------------------------------------------------------------------

  method WriteTexture(out: Writer, t: Texture)
    modifies out
    ensures out.tokens == old(out.tokens) + TextureTokens(t)
  {
    out.Write(Field(t.size));
    out.Write(Field(t.format));
    out.Write(Field(t.filterMode));
    out.Write(Blob(t.data));
  }

  /** One texture entry: a flag, and the content of a non-null one. */
  method WriteTextureSlot(out: Writer, g: Graph, slot: Option<nat>)
    requires TextureRefOk(g, slot)
    modifies out
    ensures out.tokens == old(out.tokens) + EncodeTextureSlot(g, slot)
  {
    if slot.None? {
      out.Write(Int(0));
    } else {
      out.Write(Int(1));
      WriteTexture(out, g.textures[slot.value]);
      Assoc(old(out.tokens), [Int(1)], TextureTokens(g.textures[slot.value]));
    }
  }

  /** The texture list. */
  method WriteTextures(out: Writer, g: Graph, slots: seq<Option<nat>>)
    requires forall i :: 0 <= i < |slots| ==> TextureRefOk(g, slots[i])
    modifies out
    ensures out.tokens == old(out.tokens) + EncodeTextures(g, slots)
  {
    var i := 0;
    while i < |slots|
      invariant 0 <= i <= |slots|
      invariant out.tokens == old(out.tokens) + EncodeTextures(g, slots[..i])
    {
      TexturesStep(g, slots, i);
      WriteTextureSlot(out, g, slots[i]);
      Assoc(old(out.tokens), EncodeTextures(g, slots[..i]), EncodeTextureSlot(g, slots[i]));
      i := i + 1;
    }
    assert slots[..i] == slots;
  }

  /** The lights; a null environment texture stops the save. */
  method WriteLights(out: Writer, s: Scene) returns (e: Option<Error>)
    requires SceneOk(s)
    modifies out
    ensures EncodeLights(s).Ok? ==> e.None? && out.tokens == old(out.tokens) + EncodeLights(s).value
    ensures EncodeLights(s).Err? ==> e == Some(EncodeLights(s).error)
  {
    out.Write(Blob(s.quadLights));
    out.Write(Blob(s.dirLights));
    if s.envMapLight.None? {
      out.Write(Int(0));
      return None;
    }
    var env := s.envMapLight.value;
    out.Write(Int(1));
    out.Write(Field(env.transform));
    if env.texture.None? {
      return Some(NullEnvMapTexture);
    }
    WriteTexture(out, s.graph.textures[env.texture.value]);
    return None;
  }

  /** One material of the current generation: its tag, then its
      variant's fields; a material with no tag stops the save. */
  method WriteOneMaterial(out: Writer, m: Material, textureIDs: map<Option<nat>, int>)
    returns (e: Option<Error>)
    modifies out
    ensures var w := EncodeMaterial(m, textureIDs, FORMAT_VERSION);
            && (w.Ok? ==> e.None? && out.tokens == old(out.tokens) + w.value)
            && (w.Err? ==> e == Some(w.error))
  {
    if m.Unsupported? {
      return Some(UnsupportedMaterial);
    }
    out.Write(Int(MaterialTagOf(m).value));
    WriteMaterial(out, m, textureIDs);
    return None;
  }

  /** The material list of the current generation. */
  method WriteMaterials(out: Writer, g: Graph, hs: seq<nat>, textureIDs: map<Option<nat>, int>)
    returns (e: Option<Error>)
    requires forall i :: 0 <= i < |hs| ==> hs[i] < |g.materials|
    modifies out
    ensures var w := EncodeMaterials(g, hs, textureIDs, FORMAT_VERSION);
            && (w.Ok? ==> e.None? && out.tokens == old(out.tokens) + w.value)
            && (w.Err? ==> e == Some(w.error))
  {
    ghost var written := [];
    var i := 0;
    while i < |hs|
      invariant 0 <= i <= |hs|
      invariant out.tokens == old(out.tokens) + written
      invariant EncodeMaterials(g, hs[..i], textureIDs, FORMAT_VERSION) == Ok(written)
    {
      ghost var w := EncodeMaterial(g.materials[hs[i]], textureIDs, FORMAT_VERSION);
      MaterialsAdvance(g, hs, i, textureIDs, FORMAT_VERSION, written, w);
      e := WriteOneMaterial(out, g.materials[hs[i]], textureIDs);
      if e.Some? {
        return;
      }
      Assoc(old(out.tokens), written, w.value);
      written := written + w.value;
      i := i + 1;
    }
    assert hs[..i] == hs;
    return None;
  }

  /** One mesh slot: a flag, and for a mesh its buffers and its material's
      ID; a mesh whose material has no ID stops the save. */
  method WriteMeshSlot(out: Writer, g: Graph, slot: Option<nat>, materialIDs: map<nat, int>)
    returns (e: Option<Error>)
    requires slot.Some? ==> slot.value < |g.meshes|
    modifies out
    ensures var w := EncodeMeshSlot(g, slot, materialIDs);
            && (w.Ok? ==> e.None? && out.tokens == old(out.tokens) + w.value)
            && (w.Err? ==> e == Some(w.error))
  {
    if slot.None? {
      out.Write(Int(0));
      return None;
    }
    var mesh := g.meshes[slot.value];
    var matID := GetID(mesh.material, materialIDs);
    if matID < 0 {
      return Some(UnregisteredMaterial);
    }
    out.Write(Int(1));
    out.Write(Tris(mesh.indices));
    out.Write(Blob(mesh.vertices));
    out.Write(Blob(mesh.normals));
    out.Write(Blob(mesh.texcoords));
    out.Write(Int(matID));
    return None;
  }

  /** One object's mesh slots. */
  method WriteMeshSlots(out: Writer, g: Graph, slots: seq<Option<nat>>, materialIDs: map<nat, int>)
    returns (e: Option<Error>)
    requires forall i :: 0 <= i < |slots| && slots[i].Some? ==> slots[i].value < |g.meshes|
    modifies out
    ensures var w := EncodeMeshSlots(g, slots, materialIDs);
            && (w.Ok? ==> e.None? && out.tokens == old(out.tokens) + w.value)
            && (w.Err? ==> e == Some(w.error))
  {
    ghost var written := [];
    var i := 0;
    while i < |slots|
      invariant 0 <= i <= |slots|
      invariant out.tokens == old(out.tokens) + written
      invariant EncodeMeshSlots(g, slots[..i], materialIDs) == Ok(written)
    {
      MeshSlotsStep(g, slots, i, materialIDs);
      ghost var w := EncodeMeshSlot(g, slots[i], materialIDs);
      e := WriteMeshSlot(out, g, slots[i], materialIDs);
      if e.Some? {
        return;
      }
      Assoc(old(out.tokens), written, w.value);
      written := written + w.value;
      i := i + 1;
    }
    assert slots[..i] == slots;
    return None;
  }

  /** One object: its number of slots, then its slots. */
  method WriteObject(out: Writer, g: Graph, o: nat, materialIDs: map<nat, int>)
    returns (e: Option<Error>)
    requires GraphOk(g) && o < |g.objects|
    modifies out
    ensures var w := EncodeObject(g, o, materialIDs);
            && (w.Ok? ==> e.None? && out.tokens == old(out.tokens) + w.value)
            && (w.Err? ==> e == Some(w.error))
  {
    var slots := g.objects[o].meshes;
    assert ObjectOk(g, g.objects[o]);
    out.Write(Count(|slots|));
    e := WriteMeshSlots(out, g, slots, materialIDs);
  }

  /** The object list. */
  method WriteObjects(out: Writer, g: Graph, os: seq<nat>, materialIDs: map<nat, int>)
    returns (e: Option<Error>)
    requires GraphOk(g) && forall i :: 0 <= i < |os| ==> os[i] < |g.objects|
    modifies out
    ensures var w := EncodeObjects(g, os, materialIDs);
            && (w.Ok? ==> e.None? && out.tokens == old(out.tokens) + w.value)
            && (w.Err? ==> e == Some(w.error))
  {
    ghost var written := [];
    var i := 0;
    while i < |os|
      invariant 0 <= i <= |os|
      invariant out.tokens == old(out.tokens) + written
      invariant EncodeObjects(g, os[..i], materialIDs) == Ok(written)
    {
      ObjectsStep(g, os, i, materialIDs);
      ghost var w := EncodeObject(g, os[i], materialIDs);
      e := WriteObject(out, g, os[i], materialIDs);
      if e.Some? {
        return;
      }
      Assoc(old(out.tokens), written, w.value);
      written := written + w.value;
      i := i + 1;
    }
    assert os[..i] == os;
    return None;
  }

  /** One instance slot: a flag, and the transform and object ID of a
      non-null one. */
  method WriteInstanceSlot(out: Writer, g: Graph, slot: Option<nat>, objectIDs: map<nat, int>)
    requires slot.Some? ==> slot.value < |g.instances|
    modifies out
    ensures out.tokens == old(out.tokens) + EncodeInstanceSlot(g, slot, objectIDs)
  {
    if slot.None? {
      out.Write(Int(0));
    } else {
      var inst := g.instances[slot.value];
      out.Write(Int(1));
      out.Write(Field(inst.xfm));
      out.Write(Int(GetID(inst.obj, objectIDs)));
    }
  }

  /** The instance slots. */
  method WriteInstances(out: Writer, g: Graph, slots: seq<Option<nat>>, objectIDs: map<nat, int>)
    requires forall i :: 0 <= i < |slots| && slots[i].Some? ==> slots[i].value < |g.instances|
    modifies out
    ensures out.tokens == old(out.tokens) + EncodeInstances(g, slots, objectIDs)
  {
    var i := 0;
    while i < |slots|
      invariant 0 <= i <= |slots|
      invariant out.tokens == old(out.tokens) + EncodeInstances(g, slots[..i], objectIDs)
    {
      InstancesStep(g, slots, i, objectIDs);
      WriteInstanceSlot(out, g, slots[i], objectIDs);
      Assoc(old(out.tokens), EncodeInstances(g, slots[..i], objectIDs), EncodeInstanceSlot(g, slots[i], objectIDs));
      i := i + 1;
    }
    assert slots[..i] == slots;
  }

  /** `Scene::save`: `opens` says whether the file could be opened, `good`
      whether the stream is still good after the end marker. The result is
      the tokens written, or the failure that stopped the save. */
  method Save(s: Scene, ser: SerializedScene, opens: bool, good: bool) returns (r: Result<seq<Token>, Error>)
    requires SceneOk(s) && Consistent(ser, s.graph)
    ensures r == SaveSpec(s, ser, opens, good)
  {
    if !opens {
      return Err(CannotOpen);
    }
    var g := s.graph;
    var out := new Writer();
    out.Write(Word(EXPECTED_MAGIC));
    out.Write(Count(|ser.textures|));
    assert out.tokens == [Word(MagicOf(FORMAT_VERSION)), Count(|ser.textures|)];
    WriteTextures(out, g, ser.textures);
    var e := WriteLights(out, s);
    if e.Some? {
      return Err(e.value);
    }
    out.Write(Count(|ser.materials|));
    e := WriteMaterials(out, g, ser.materials, ser.textureIDs);
    if e.Some? {
      return Err(e.value);
    }
    out.Write(Count(|ser.objects|));
    e := WriteObjects(out, g, ser.objects, ser.materialIDs);
    if e.Some? {
      return Err(e.value);
    }
    out.Write(Count(|s.instances|));
    WriteInstances(out, g, s.instances, ser.objectIDs);
    out.Write(Word(EXPECTED_MAGIC));
    if !good {
      return Err(WriteFailed);
    }
    return Ok(out.tokens);
  }

  // ---------------------------------------------------------------------
  // Reading
  // ---------------------------------------------------------------------

  method ReadTexture(input: Reader) returns (r: Result<Texture, Error>)
    requires input.Valid()
    modifies input
    ensures input.Valid()
    ensures r.Ok? ==> DecodeTexture(old(input.Rest())) == Ok(Parsed(r.value, input.Rest()))
    ensures r.Err? ==> DecodeTexture(old(input.Rest())) == Err(r.error)
  {
    var size :- input.ReadField();
    var format :- input.ReadField();
    var filterMode :- input.ReadField();
    var data :- input.ReadBlob();
    return Ok(Texture(size, format, filterMode, data));
  }

  /** `n` texture entries, appended to the texture table. */
  method ReadTextures(input: Reader, n: nat, st: LoadState) returns (r: Result<LoadState, Error>)
    requires input.Valid()
    modifies input
    ensures input.Valid()
    ensures r.Ok? ==> DecodeTextures(old(input.Rest()), n, st) == Ok(Parsed(r.value, input.Rest()))
    ensures r.Err? ==> DecodeTextures(old(input.Rest()), n, st) == Err(r.error)
  {
    var cur := st;
    var i := 0;
    while i < n
      invariant input.Valid() && i <= n
      invariant DecodeTextures(old(input.Rest()), n, st) == DecodeTextures(input.Rest(), n - i, cur)
    {
      var valid :- input.ReadInt();
      if valid == 0 {
        cur := cur.(textures := cur.textures + [None]);
      } else {
        var tex :- ReadTexture(input);
        cur := cur.WithTexture(tex);
      }
      i := i + 1;
    }
    return Ok(cur);
  }

  /** The lights; the environment light's texture is a node of its own. */
  method ReadLights(input: Reader, st: LoadState) returns (r: Result<LoadState, Error>)
    requires input.Valid()
    modifies input
    ensures input.Valid()
    ensures r.Ok? ==> DecodeLights(old(input.Rest()), st) == Ok(Parsed(r.value, input.Rest()))
    ensures r.Err? ==> DecodeLights(old(input.Rest()), st) == Err(r.error)
  {
    var quad :- input.ReadBlob();
    var dir :- input.ReadBlob();
    var hasEnvMap :- input.ReadInt();
    var st1 := st.(quadLights := quad, dirLights := dir);
    if hasEnvMap == 0 {
      return Ok(st1);
    }
    var transform :- input.ReadField();
    var tex :- ReadTexture(input);
    return Ok(st1.(graph := st1.graph.(textures := st1.graph.textures + [tex]),
                   envMapLight := Some(EnvMapLight(transform, Some(|st1.graph.textures|)))));
  }

  /** One material: a tag (none in generation 11, where every material is
      Disney), a fresh material of that variant, and its `read`. */
  method ReadOneMaterial(input: Reader, st: LoadState) returns (r: Result<Material, Error>)
    requires input.Valid()
    modifies input
    ensures input.Valid()
    ensures r.Ok? ==> DecodeMaterial(old(input.Rest()), st) == Ok(Parsed(r.value, input.Rest()))
    ensures r.Err? ==> DecodeMaterial(old(input.Rest()), st) == Err(r.error)
  {
    var tag: int;
    if st.version == 11 {
      tag := DISNEY;
    } else {
      tag :- input.ReadInt();
    }
    var proto :- CreateMaterialFromTag(tag);
    r := ReadMaterial(input, proto, st.textures);
  }

  /** The next of the `left` materials still to read: the state with it,
      or the failure of the whole list. */
  method ReadNextMaterial(input: Reader, left: nat, cur: LoadState) returns (r: Result<LoadState, Error>)
    requires input.Valid() && left > 0
    modifies input
    ensures input.Valid()
    ensures r.Ok? ==> DecodeMaterials(old(input.Rest()), left, cur) == DecodeMaterials(input.Rest(), left - 1, r.value)
    ensures r.Err? ==> DecodeMaterials(old(input.Rest()), left, cur) == Err(r.error)
  {
    var mat :- ReadOneMaterial(input, cur);
    return Ok(cur.WithMaterial(mat));
  }

  /** `n` materials. */
  method ReadMaterials(input: Reader, n: nat, st: LoadState) returns (r: Result<LoadState, Error>)
    requires input.Valid()
    modifies input
    ensures input.Valid()
    ensures r.Ok? ==> DecodeMaterials(old(input.Rest()), n, st) == Ok(Parsed(r.value, input.Rest()))
    ensures r.Err? ==> DecodeMaterials(old(input.Rest()), n, st) == Err(r.error)
  {
    ghost var start := input.Rest();
    var cur := st;
    for i := 0 to n
      invariant input.Valid()
      invariant DecodeMaterials(start, n, st) == DecodeMaterials(input.Rest(), n - i, cur)
    {
      cur :- ReadNextMaterial(input, n - i, cur);
    }
    return Ok(cur);
  }

  /** One valid mesh: its buffers and a material ID that must name a
      loaded material. */
  method ReadMesh(input: Reader, st: LoadState) returns (r: Result<Mesh, Error>)
    requires input.Valid()
    modifies input
    ensures input.Valid()
    ensures r.Ok? ==> DecodeMesh(old(input.Rest()), st) == Ok(Parsed(r.value, input.Rest()))
    ensures r.Err? ==> DecodeMesh(old(input.Rest()), st) == Err(r.error)
  {
    var indices :- input.ReadTris();
    var vertices :- input.ReadBlob();
    var normals :- input.ReadBlob();
    var texcoords :- input.ReadBlob();
    var matID :- input.ReadInt();
    if !(0 <= matID < |st.graph.materials|) {
      return Err(MaterialIdOutOfRange);
    }
    return Ok(Mesh(indices, vertices, normals, texcoords, matID));
  }

  /** The next of the `left` mesh slots still to read: a zero flag skips
      it, otherwise the mesh is read and appended to the object. */
  method ReadNextMeshSlot(input: Reader, left: nat, cur: LoadState) returns (r: Result<LoadState, Error>)
    requires input.Valid() && left > 0
    modifies input
    ensures input.Valid()
    ensures r.Ok? ==> DecodeMeshes(old(input.Rest()), left, cur) == DecodeMeshes(input.Rest(), left - 1, r.value)
    ensures r.Err? ==> DecodeMeshes(old(input.Rest()), left, cur) == Err(r.error)
  {
    var isValid :- input.ReadInt();
    if isValid == 0 {
      return Ok(cur);
    }
    var mesh :- ReadMesh(input, cur);
    return Ok(cur.WithMesh(mesh));
  }

  /** `m` mesh slots of the object being read; null slots are skipped. */
  method ReadMeshes(input: Reader, m: nat, st: LoadState) returns (r: Result<LoadState, Error>)
    requires input.Valid()
    modifies input
    ensures input.Valid()
    ensures r.Ok? ==> DecodeMeshes(old(input.Rest()), m, st) == Ok(Parsed(r.value, input.Rest()))
    ensures r.Err? ==> DecodeMeshes(old(input.Rest()), m, st) == Err(r.error)
  {
    ghost var start := input.Rest();
    var cur := st;
    for i := 0 to m
      invariant input.Valid()
      invariant DecodeMeshes(start, m, st) == DecodeMeshes(input.Rest(), m - i, cur)
    {
      cur :- ReadNextMeshSlot(input, m - i, cur);
    }
    return Ok(cur);
  }

  /** `n` objects, each a fresh object holding the meshes of its slots. */
  method ReadObjects(input: Reader, n: nat, st: LoadState) returns (r: Result<LoadState, Error>)
    requires input.Valid()
    modifies input
    ensures input.Valid()
    ensures r.Ok? ==> DecodeObjects(old(input.Rest()), n, st) == Ok(Parsed(r.value, input.Rest()))
    ensures r.Err? ==> DecodeObjects(old(input.Rest()), n, st) == Err(r.error)
  {
    var cur := st;
    var i := 0;
    while i < n
      invariant input.Valid() && i <= n
      invariant DecodeObjects(old(input.Rest()), n, st) == DecodeObjects(input.Rest(), n - i, cur)
    {
      var numMeshes :- input.ReadCount();
      var withMeshes :- ReadMeshes(input, numMeshes, cur.(meshes := []));
      cur := withMeshes.WithObject();
      i := i + 1;
    }
    return Ok(cur);
  }

  /** One valid instance: its transform and an object ID that must name a
      loaded object. */
  method ReadInstance(input: Reader, st: LoadState) returns (r: Result<Instance, Error>)
    requires input.Valid()
    modifies input
    ensures input.Valid()
    ensures r.Ok? ==> DecodeInstance(old(input.Rest()), st) == Ok(Parsed(r.value, input.Rest()))
    ensures r.Err? ==> DecodeInstance(old(input.Rest()), st) == Err(r.error)
  {
    var xfm :- input.ReadField();
    var objID :- input.ReadInt();
    if !(0 <= objID < |st.graph.objects|) {
      return Err(ObjectIdOutOfRange);
    }
    return Ok(Instance(xfm, objID));
  }

  /** `n` instance slots; a zero flag is a null slot. */
  method ReadInstances(input: Reader, n: nat, st: LoadState) returns (r: Result<LoadState, Error>)
    requires input.Valid()
    modifies input
    ensures input.Valid()
    ensures r.Ok? ==> DecodeInstances(old(input.Rest()), n, st) == Ok(Parsed(r.value, input.Rest()))
    ensures r.Err? ==> DecodeInstances(old(input.Rest()), n, st) == Err(r.error)
  {
    var cur := st;
    var i := 0;
    while i < n
      invariant input.Valid() && i <= n
      invariant DecodeInstances(old(input.Rest()), n, st) == DecodeInstances(input.Rest(), n - i, cur)
    {
      var isValid :- input.ReadInt();
      if isValid == 0 {
        cur := cur.(instances := cur.instances + [None]);
      } else {
        var inst :- ReadInstance(input, cur);
        cur := cur.WithInstance(inst);
      }
      i := i + 1;
    }
    return Ok(cur);
  }

  /** Materials, objects, instances and the end marker. */
  method ReadFromMaterials(input: Reader, st: LoadState) returns (r: Result<Scene, Error>)
    requires input.Valid()
    modifies input
    ensures r == DecodeFromMaterials(old(input.Rest()), st)
  {
    var numMaterials :- input.ReadCount();
    var cur :- ReadMaterials(input, numMaterials, st);
    var numObjects :- input.ReadCount();
    cur :- ReadObjects(input, numObjects, cur);
    var numInstances :- input.ReadCount();
    cur :- ReadInstances(input, numInstances, cur);
    var magicAtEnd :- input.ReadWord();
    if magicAtEnd != EXPECTED_MAGIC && magicAtEnd != EXPECTED_MAGIC - 1 {
      return Err(CorruptEnd);
    }
    return Ok(cur.Scene());
  }

  /** `Scene::load`: `file` is the content of the file, `None` when it
      cannot be opened. */
  method Load(file: Option<seq<Token>>) returns (r: Result<Scene, Error>)
    ensures r == LoadSpec(file)
  {
    if file.None? {
      return Err(CannotOpen);
    }
    var input := new Reader(file.value);
    var magic :- input.ReadWord();
    var version: int;
    if magic == EXPECTED_MAGIC {
      version := FORMAT_VERSION;
    } else if magic == EXPECTED_MAGIC - 1 {
      version := 11;
    } else {
      return Err(WrongMagic);
    }
    var numTextures :- input.ReadCount();
    var st :- ReadTextures(input, numTextures, InitialState(version));
    st :- ReadLights(input, st);
    r := ReadFromMaterials(input, st);
  }
}
