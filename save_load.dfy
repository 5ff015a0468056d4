/** The whole file: what `Scene::load` gives back for the tokens
    `Scene::save` wrote, and what of the saved scene survives the trip. */
module SaveLoad {
  import opened Wrappers
  import opened Stream
  import opened SceneGraph
  import opened Materials
  import opened Serialized
  import opened Format
  import opened RoundTrip

  /** A registry that indexes its list and reaches every node the scene
      refers to gives every saved reference an ID the loader accepts. */
  lemma RegistriesCoverScene(s: Scene, ser: SerializedScene)
    requires SceneOk(s) && Consistent(ser, s.graph) && Complete(s, ser)
    ensures forall i :: 0 <= i < |ser.materials| ==>
              TexturesInTable(s.graph.materials[ser.materials[i]], ser.textureIDs, |ser.textures|)
    ensures ObjectsInTable(s.graph, ser.objects, ser.materialIDs, |ser.materials|)
    ensures InstancesInTable(s.graph, s.instances, ser.objectIDs, |ser.objects|)
  {
    var g := s.graph;
    forall i | 0 <= i < |ser.materials|
      ensures TexturesInTable(g.materials[ser.materials[i]], ser.textureIDs, |ser.textures|)
    {
      var m := g.materials[ser.materials[i]];
      if m.Disney? {
        GetIDIsPosition(ser.textures, ser.textureIDs, m.colorTexture);
        GetIDIsPosition(ser.textures, ser.textureIDs, m.alphaTexture);
      }
    }
    forall i | 0 <= i < |ser.objects|
      ensures MeshesInTable(g, g.objects[ser.objects[i]].meshes, ser.materialIDs, |ser.materials|)
    {
      var slots := g.objects[ser.objects[i]].meshes;
      assert ObjectOk(g, g.objects[ser.objects[i]]);
      forall p | 0 <= p < |slots| && slots[p].Some?
        ensures slots[p].value < |g.meshes|
        ensures 0 <= GetID(g.meshes[slots[p].value].material, ser.materialIDs) < |ser.materials|
      {
        GetIDIsPosition(ser.materials, ser.materialIDs, g.meshes[slots[p].value].material);
      }
    }
    forall k | 0 <= k < |s.instances| && s.instances[k].Some?
      ensures s.instances[k].value < |g.instances|
      ensures 0 <= GetID(g.instances[s.instances[k].value].obj, ser.objectIDs) < |ser.objects|
    {
      GetIDIsPosition(ser.objects, ser.objectIDs, ObjectOf(s, k));
    }
  }

  /** What loading a saved scene relies on: a well-formed scene, registries
      that index and reach it, and an environment light (if any) with a
      texture, without which the save fails. */
  ghost predicate Reloadable(s: Scene, ser: SerializedScene) {
    && SceneOk(s) && Consistent(ser, s.graph) && Complete(s, ser)
    && (s.envMapLight.Some? ==> s.envMapLight.value.texture.Some?)
  }

  /** The state after each section of a saved file is loaded: every
      section folded over the registries' lists, starting from nothing. */
  function TexturesLoaded(s: Scene, ser: SerializedScene, version: int): LoadState
    requires Reloadable(s, ser)
  {
    LoadedTextures(s.graph, ser.textures, InitialState(version))
  }

  function LightsLoaded(s: Scene, ser: SerializedScene, version: int): LoadState
    requires Reloadable(s, ser)
  {
    LoadedLights(s, TexturesLoaded(s, ser, version))
  }

  function MaterialsLoaded(s: Scene, ser: SerializedScene, version: int): LoadState
    requires Reloadable(s, ser)
  {
    RegistriesCoverScene(s, ser);
    LoadedMaterials(s.graph, ser.materials, ser.textureIDs, LightsLoaded(s, ser, version))
  }

  function ObjectsLoaded(s: Scene, ser: SerializedScene, version: int): LoadState
    requires Reloadable(s, ser)
  {
    RegistriesCoverScene(s, ser);
    LoadedObjects(s.graph, ser.objects, ser.materialIDs, MaterialsLoaded(s, ser, version))
  }

  function InstancesLoaded(s: Scene, ser: SerializedScene, version: int): LoadState
    requires Reloadable(s, ser)
  {
    RegistriesCoverScene(s, ser);
    LoadedInstances(s.graph, s.instances, ser.objectIDs, ObjectsLoaded(s, ser, version))
  }

  /** The scene `Scene::load` builds from a saved file. */
  function Reloaded(s: Scene, ser: SerializedScene, version: int): Scene
    requires Reloadable(s, ser)
  {
    InstancesLoaded(s, ser, version).Scene()
  }

  lemma Flatten(w: seq<Token>, c1: seq<Token>, t: seq<Token>, l: seq<Token>, c2: seq<Token>,
                m: seq<Token>, c3: seq<Token>, o: seq<Token>, c4: seq<Token>, i: seq<Token>,
                w2: seq<Token>)
    ensures w + c1 + t + l + c2 + m + c3 + o + c4 + i + w2
            == w + (c1 + (t + (l + (c2 + (m + (c3 + (o + (c4 + (i + w2)))))))))
  {
  }

  /** `Decode` chains its sections: when each reads what the previous one
      left, the file decodes to the state the last one built. */
  lemma DecodeOfSections(ts: seq<Token>, magic: nat, version: int, r: seq<Token>,
                         nt: nat, rt: seq<Token>, r0: seq<Token>, st1: LoadState,
                         r1: seq<Token>, st2: LoadState, nm: nat, r1c: seq<Token>,
                         r2: seq<Token>, st3: LoadState, no: nat, r2c: seq<Token>,
                         r3: seq<Token>, st4: LoadState, ni: nat, r3c: seq<Token>,
                         r4: seq<Token>, st5: LoadState)
    requires ParseWord(ts) == Ok(Parsed(magic, r)) && VersionOf(magic) == Ok(version)
    requires ParseCount(r) == Ok(Parsed(nt, rt))
    requires DecodeTextures(rt, nt, InitialState(version)) == Ok(Parsed(st1, r0))
    requires DecodeLights(r0, st1) == Ok(Parsed(st2, r1))
    requires ParseCount(r1) == Ok(Parsed(nm, r1c))
    requires DecodeMaterials(r1c, nm, st2) == Ok(Parsed(st3, r2))
    requires ParseCount(r2) == Ok(Parsed(no, r2c))
    requires DecodeObjects(r2c, no, st3) == Ok(Parsed(st4, r3))
    requires ParseCount(r3) == Ok(Parsed(ni, r3c))
    requires DecodeInstances(r3c, ni, st4) == Ok(Parsed(st5, r4))
    ensures Decode(ts) == CheckEnd(r4, st5.Scene())
  {
  }

  /** The saved file, section by section. */
  lemma SceneLayout(s: Scene, ser: SerializedScene, version: int)
    requires SceneOk(s) && Consistent(ser, s.graph) && (version == 11 || version == 12)
    requires EncodeScene(s, ser, version).Ok?
    ensures EncodeLights(s).Ok?
    ensures EncodeMaterials(s.graph, ser.materials, ser.textureIDs, version).Ok?
    ensures EncodeObjects(s.graph, ser.objects, ser.materialIDs).Ok?
    ensures EncodeScene(s, ser, version).value
            == [Word(MagicOf(version))] + ([Count(|ser.textures|)] + (EncodeTextures(s.graph, ser.textures)
               + (EncodeLights(s).value + ([Count(|ser.materials|)]
               + (EncodeMaterials(s.graph, ser.materials, ser.textureIDs, version).value
               + ([Count(|ser.objects|)] + (EncodeObjects(s.graph, ser.objects, ser.materialIDs).value
               + ([Count(|s.instances|)] + (EncodeInstances(s.graph, s.instances, ser.objectIDs)
               + [Word(MagicOf(version))])))))))))
  {
    var magic := MagicOf(version);
    assert [Word(magic), Count(|ser.textures|)] == [Word(magic)] + [Count(|ser.textures|)];
    Flatten([Word(magic)], [Count(|ser.textures|)], EncodeTextures(s.graph, ser.textures),
            EncodeLights(s).value, [Count(|ser.materials|)],
            EncodeMaterials(s.graph, ser.materials, ser.textureIDs, version).value,
            [Count(|ser.objects|)], EncodeObjects(s.graph, ser.objects, ser.materialIDs).value,
            [Count(|s.instances|)], EncodeInstances(s.graph, s.instances, ser.objectIDs), [Word(magic)]);
  }

  /** The first two sections read back. */
  lemma FrontReadsBack(s: Scene, ser: SerializedScene, version: int, rest: seq<Token>)
    requires Reloadable(s, ser) && EncodeLights(s).Ok?
    ensures DecodeTextures(EncodeTextures(s.graph, ser.textures) + (EncodeLights(s).value + rest),
                           |ser.textures|, InitialState(version))
            == Ok(Parsed(TexturesLoaded(s, ser, version), EncodeLights(s).value + rest))
    ensures DecodeLights(EncodeLights(s).value + rest, TexturesLoaded(s, ser, version))
            == Ok(Parsed(LightsLoaded(s, ser, version), rest))
  {
    TexturesRoundTrip(s.graph, ser.textures, InitialState(version), EncodeLights(s).value + rest);
    LightsRoundTrip(s, TexturesLoaded(s, ser, version), rest);
  }

  lemma MaterialsReadBack(s: Scene, ser: SerializedScene, version: int, rest: seq<Token>)
    requires Reloadable(s, ser) && (version == 11 || version == 12)
    requires EncodeMaterials(s.graph, ser.materials, ser.textureIDs, version).Ok?
    ensures DecodeMaterials(EncodeMaterials(s.graph, ser.materials, ser.textureIDs, version).value + rest,
                            |ser.materials|, LightsLoaded(s, ser, version))
            == Ok(Parsed(MaterialsLoaded(s, ser, version), rest))
  {
    RegistriesCoverScene(s, ser);
    MaterialsRoundTrip(s.graph, ser.materials, ser.textureIDs, LightsLoaded(s, ser, version), rest);
  }

  lemma ObjectsReadBack(s: Scene, ser: SerializedScene, version: int, rest: seq<Token>)
    requires Reloadable(s, ser)
    ensures EncodeObjects(s.graph, ser.objects, ser.materialIDs).Ok?
    ensures DecodeObjects(EncodeObjects(s.graph, ser.objects, ser.materialIDs).value + rest,
                          |ser.objects|, MaterialsLoaded(s, ser, version))
            == Ok(Parsed(ObjectsLoaded(s, ser, version), rest))
  {
    RegistriesCoverScene(s, ser);
    ObjectsRoundTrip(s.graph, ser.objects, ser.materialIDs, MaterialsLoaded(s, ser, version), rest);
  }

  lemma InstancesReadBack(s: Scene, ser: SerializedScene, version: int, rest: seq<Token>)
    requires Reloadable(s, ser)
    ensures DecodeInstances(EncodeInstances(s.graph, s.instances, ser.objectIDs) + rest,
                            |s.instances|, ObjectsLoaded(s, ser, version))
            == Ok(Parsed(InstancesLoaded(s, ser, version), rest))
  {
    RegistriesCoverScene(s, ser);
    InstancesRoundTrip(s.graph, s.instances, ser.objectIDs, ObjectsLoaded(s, ser, version), rest);
  }

  /** The layout `Scene::save` writes decodes section by section: given
      what each section decoder makes of its own tokens, the file decodes to
      the state the last one built, once the trailer is checked. */
  lemma LayoutDecodes(magic: nat, version: int, T: seq<Token>, L: seq<Token>, M: seq<Token>,
                      O: seq<Token>, I: seq<Token>, nt: nat, nm: nat, no: nat, ni: nat,
                      st1: LoadState, st2: LoadState, st3: LoadState, st4: LoadState, st5: LoadState,
                      r0c: seq<Token>, r2: seq<Token>, r4: seq<Token>, tail: seq<Token>)
    requires VersionOf(magic) == Ok(version)
    requires r4 == I + tail
    requires r2 == O + ([Count(ni)] + r4)
    requires r0c == [Count(nm)] + (M + ([Count(no)] + r2))
    requires DecodeTextures(T + (L + r0c), nt, InitialState(version)) == Ok(Parsed(st1, L + r0c))
    requires DecodeLights(L + r0c, st1) == Ok(Parsed(st2, r0c))
    requires DecodeMaterials(M + ([Count(no)] + r2), nm, st2) == Ok(Parsed(st3, [Count(no)] + r2))
    requires DecodeObjects(r2, no, st3) == Ok(Parsed(st4, [Count(ni)] + r4))
    requires DecodeInstances(r4, ni, st4) == Ok(Parsed(st5, tail))
    ensures Decode([Word(magic)] + ([Count(nt)] + (T + (L + r0c)))) == CheckEnd(tail, st5.Scene())
  {
    var r1c := [Count(no)] + r2;
    var r1 := M + r1c;
    var r3 := [Count(ni)] + r4;
    var r0 := L + r0c;
    var rt := T + r0;
    var r := [Count(nt)] + rt;
    ReadsWhatWasWritten(Word(magic), r);
    ReadsWhatWasWritten(Count(nt), rt);
    ReadsWhatWasWritten(Count(nm), r1);
    ReadsWhatWasWritten(Count(no), r2);
    ReadsWhatWasWritten(Count(ni), r4);
    DecodeOfSections([Word(magic)] + r, magic, version, r, nt, rt, r0, st1, r0c, st2,
                     nm, r1, r1c, st3, no, r2, r3, st4, ni, r4, tail, st5);
  }

  /** The tokens of the saved layout, up to the trailer, decode to
      `Reloaded`; what follows them is checked as the trailer. */
  lemma LayoutReadsBack(s: Scene, ser: SerializedScene, version: int, tail: seq<Token>)
    requires Reloadable(s, ser) && (version == 11 || version == 12)
    requires EncodeLights(s).Ok?
    requires EncodeMaterials(s.graph, ser.materials, ser.textureIDs, version).Ok?
    ensures EncodeObjects(s.graph, ser.objects, ser.materialIDs).Ok?
    ensures Decode([Word(MagicOf(version))] + ([Count(|ser.textures|)] + (EncodeTextures(s.graph, ser.textures)
               + (EncodeLights(s).value + ([Count(|ser.materials|)]
               + (EncodeMaterials(s.graph, ser.materials, ser.textureIDs, version).value
               + ([Count(|ser.objects|)] + (EncodeObjects(s.graph, ser.objects, ser.materialIDs).value
               + ([Count(|s.instances|)] + (EncodeInstances(s.graph, s.instances, ser.objectIDs)
               + tail))))))))))
            == CheckEnd(tail, Reloaded(s, ser, version))
  {
    var g := s.graph;
    var magic := MagicOf(version);
    ObjectsReadBack(s, ser, version, [Count(|s.instances|)] + (EncodeInstances(g, s.instances, ser.objectIDs) + tail));
    var T := EncodeTextures(g, ser.textures);
    var L := EncodeLights(s).value;
    var M := EncodeMaterials(g, ser.materials, ser.textureIDs, version).value;
    var O := EncodeObjects(g, ser.objects, ser.materialIDs).value;
    var I := EncodeInstances(g, s.instances, ser.objectIDs);
    var r4 := I + tail;
    var r2 := O + ([Count(|s.instances|)] + r4);
    var r0c := [Count(|ser.materials|)] + (M + ([Count(|ser.objects|)] + r2));
    FrontReadsBack(s, ser, version, r0c);
    MaterialsReadBack(s, ser, version, [Count(|ser.objects|)] + r2);
    InstancesReadBack(s, ser, version, tail);
    LayoutDecodes(magic, version, T, L, M, O, I, |ser.textures|, |ser.materials|, |ser.objects|,
                  |s.instances|, TexturesLoaded(s, ser, version), LightsLoaded(s, ser, version),
                  MaterialsLoaded(s, ser, version), ObjectsLoaded(s, ser, version),
                  InstancesLoaded(s, ser, version), r0c, r2, r4, tail);
  }

  /** Loading what saving wrote gives back `Reloaded`, in both format
      generations. */
  lemma SaveLoadRoundTrip(s: Scene, ser: SerializedScene, version: int)
    requires Reloadable(s, ser) && (version == 11 || version == 12)
    requires EncodeScene(s, ser, version).Ok?
    ensures Decode(EncodeScene(s, ser, version).value) == Ok(Reloaded(s, ser, version))
  {
    SceneLayout(s, ser, version);
    LayoutReadsBack(s, ser, version, [Word(MagicOf(version))]);
    assert [Word(MagicOf(version))] == [Word(MagicOf(version))] + [];
    ReadsWhatWasWritten(Word(MagicOf(version)), []);
  }

  /** The last token of a layout, and what is left when it is cut off. */
  lemma CutLast(w: seq<Token>, c1: seq<Token>, t: seq<Token>, l: seq<Token>, c2: seq<Token>,
                m: seq<Token>, c3: seq<Token>, o: seq<Token>, c4: seq<Token>, i: seq<Token>,
                last: Token, tail: seq<Token>)
    ensures var f := w + (c1 + (t + (l + (c2 + (m + (c3 + (o + (c4 + (i + [last])))))))));
            && |f| >= 1 && f[|f| - 1] == last
            && f[..|f| - 1] + tail == w + (c1 + (t + (l + (c2 + (m + (c3 + (o + (c4 + (i + tail)))))))))
  {
    var front := w + c1 + t + l + c2 + m + c3 + o + c4 + i;
    Flatten(w, c1, t, l, c2, m, c3, o, c4, i, [last]);
    Flatten(w, c1, t, l, c2, m, c3, o, c4, i, tail);
    assert (front + [last])[..|front|] == front;
  }

  /** A saved file ends with the magic of its generation; in its place
      `Scene::load` checks whatever follows the instances as the trailer. */
  lemma SavedTrailer(s: Scene, ser: SerializedScene, version: int, tail: seq<Token>)
    requires Reloadable(s, ser) && (version == 11 || version == 12)
    requires EncodeScene(s, ser, version).Ok?
    ensures var f := EncodeScene(s, ser, version).value;
            && |f| >= 1 && f[|f| - 1] == Word(MagicOf(version))
            && Decode(f[..|f| - 1] + tail) == CheckEnd(tail, Reloaded(s, ser, version))
  {
    var g := s.graph;
    SceneLayout(s, ser, version);
    LayoutReadsBack(s, ser, version, tail);
    CutLast([Word(MagicOf(version))], [Count(|ser.textures|)], EncodeTextures(g, ser.textures),
            EncodeLights(s).value, [Count(|ser.materials|)],
            EncodeMaterials(g, ser.materials, ser.textureIDs, version).value,
            [Count(|ser.objects|)], EncodeObjects(g, ser.objects, ser.materialIDs).value,
            [Count(|s.instances|)], EncodeInstances(g, s.instances, ser.objectIDs),
            Word(MagicOf(version)), tail);
  }

  /** A saved file cut short before its end marker fails to load. */
  lemma TruncatedSaveFails(s: Scene, ser: SerializedScene, version: int)
    requires Reloadable(s, ser) && (version == 11 || version == 12)
    requires EncodeScene(s, ser, version).Ok?
    ensures var f := EncodeScene(s, ser, version).value;
            |f| >= 1 && Decode(f[..|f| - 1]) == Err(Truncated)
  {
    var f := EncodeScene(s, ser, version).value;
    SavedTrailer(s, ser, version, []);
    assert f[..|f| - 1] + [] == f[..|f| - 1];
  }

  /** A saved file whose end marker is replaced by a word that is no
      accepted magic fails with a corrupt end; whatever follows it does not
      matter. */
  lemma CorruptEndFails(s: Scene, ser: SerializedScene, version: int, w: nat, rest: seq<Token>)
    requires Reloadable(s, ser) && (version == 11 || version == 12)
    requires EncodeScene(s, ser, version).Ok?
    requires w != EXPECTED_MAGIC && w != EXPECTED_MAGIC - 1
    ensures var f := EncodeScene(s, ser, version).value;
            |f| >= 1 && Decode(f[..|f| - 1] + ([Word(w)] + rest)) == Err(CorruptEnd)
  {
    SavedTrailer(s, ser, version, [Word(w)] + rest);
    ReadsWhatWasWritten(Word(w), rest);
  }

  /** Either accepted magic closes a file of either generation, and tokens
      after the end marker are not read. */
  lemma AnyAcceptedTrailer(s: Scene, ser: SerializedScene, version: int, w: nat, rest: seq<Token>)
    requires Reloadable(s, ser) && (version == 11 || version == 12)
    requires EncodeScene(s, ser, version).Ok?
    requires w == EXPECTED_MAGIC || w == EXPECTED_MAGIC - 1
    ensures var f := EncodeScene(s, ser, version).value;
            |f| >= 1 && Decode(f[..|f| - 1] + ([Word(w)] + rest)) == Ok(Reloaded(s, ser, version))
  {
    SavedTrailer(s, ser, version, [Word(w)] + rest);
    ReadsWhatWasWritten(Word(w), rest);
  }
}
