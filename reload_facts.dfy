/** What each section of `Scene::load` builds, in closed form: the entries
    and nodes a section appends, stated independently of the fold that
    builds them. */
module ReloadFacts {
  import opened Wrappers
  import opened Stream
  import opened SceneGraph
  import opened Materials
  import opened Format
  import opened RoundTrip

  /** The handles the non-null slots get when their nodes are appended
      from `base` on; null slots stay null. */
  function Renumbered(slots: seq<Option<nat>>, base: nat): (r: seq<Option<nat>>)
    ensures |r| == |slots|
    decreases |slots|
  {
    if slots == [] then []
    else if slots[0].None? then [None] + Renumbered(slots[1..], base)
    else [Some(base)] + Renumbered(slots[1..], base + 1)
  }

  /** Renumbering keeps the null positions. */
  lemma {:induction false} RenumberedNulls(slots: seq<Option<nat>>, base: nat)
    ensures forall i :: 0 <= i < |slots| ==> (Renumbered(slots, base)[i].None? <==> slots[i].None?)
    decreases |slots|
  {
    if slots != [] {
      var base1 := if slots[0].None? then base else base + 1;
      RenumberedNulls(slots[1..], base1);
      forall i | 1 <= i < |slots|
        ensures Renumbered(slots, base)[i].None? <==> slots[i].None?
      {
        assert Renumbered(slots, base)[i] == Renumbered(slots[1..], base1)[i - 1];
        assert slots[i] == slots[1..][i - 1];
      }
    }
  }

  /** A non-null slot is sent to the node of its position among the
      non-null slots. */
  lemma {:induction false} RenumberedPositions(slots: seq<Option<nat>>, base: nat)
    ensures forall i :: 0 <= i < |slots| && slots[i].Some? ==>
              && Renumbered(slots, base)[i].Some?
              && base <= Renumbered(slots, base)[i].value < base + |Present(slots)|
              && Present(slots)[Renumbered(slots, base)[i].value - base] == slots[i].value
    decreases |slots|
  {
    if slots != [] {
      var base1 := if slots[0].None? then base else base + 1;
      RenumberedPositions(slots[1..], base1);
      var r := Renumbered(slots, base);
      var r1 := Renumbered(slots[1..], base1);
      var p := Present(slots);
      var p1 := Present(slots[1..]);
      if slots[0].None? {
        assert r == [None] + r1 && p == p1;
        forall i | 0 <= i < |slots| && slots[i].Some?
          ensures r[i].Some? && base <= r[i].value < base + |p| && p[r[i].value - base] == slots[i].value
        {
          assert r[i] == r1[i - 1] && slots[i] == slots[1..][i - 1];
        }
      } else {
        assert r == [Some(base)] + r1 && p == [slots[0].value] + p1;
        forall i | 0 <= i < |slots| && slots[i].Some?
          ensures r[i].Some? && base <= r[i].value < base + |p| && p[r[i].value - base] == slots[i].value
        {
          if i > 0 {
            assert r[i] == r1[i - 1] && slots[i] == slots[1..][i - 1];
            assert p[r[i].value - base] == p1[r[i].value - base1];
          }
        }
      }
    }
  }

  /** Later non-null slots get later nodes, so distinct slots never share
      one. */
  lemma {:induction false} RenumberedIncreasing(slots: seq<Option<nat>>, base: nat)
    ensures forall i, j :: 0 <= i < j < |slots| && slots[i].Some? && slots[j].Some? ==>
              && Renumbered(slots, base)[i].Some? && Renumbered(slots, base)[j].Some?
              && Renumbered(slots, base)[i].value < Renumbered(slots, base)[j].value
    decreases |slots|
  {
    if slots != [] {
      var base1 := if slots[0].None? then base else base + 1;
      RenumberedPositions(slots, base);
      RenumberedPositions(slots[1..], base1);
      RenumberedIncreasing(slots[1..], base1);
      var r := Renumbered(slots, base);
      var r1 := Renumbered(slots[1..], base1);
      forall i, j | 0 <= i < j < |slots| && slots[i].Some? && slots[j].Some?
        ensures r[i].Some? && r[j].Some? && r[i].value < r[j].value
      {
        assert r[j] == r1[j - 1];
        assert slots[j] == slots[1..][j - 1];
        if i > 0 {
          assert r[i] == r1[i - 1];
          assert slots[i] == slots[1..][i - 1];
        }
      }
    }
  }

  /** The handles of the non-null slots are handles the slots hold. */
  lemma {:induction false} PresentBounded(slots: seq<Option<nat>>, n: nat)
    requires forall i :: 0 <= i < |slots| && slots[i].Some? ==> slots[i].value < n
    ensures forall p :: 0 <= p < |Present(slots)| ==> Present(slots)[p] < n
    decreases |slots|
  {
    if slots != [] {
      assert forall i :: 0 <= i < |slots[1..]| ==> slots[1..][i] == slots[i + 1];
      PresentBounded(slots[1..], n);
    }
  }

  // ---------------------------------------------------------------------
  // Textures
  // ---------------------------------------------------------------------

  /** The contents of the textures in the slots, nulls left out. */
  function TexturesAt(g: Graph, slots: seq<Option<nat>>): (r: seq<Texture>)
    requires forall i :: 0 <= i < |slots| ==> TextureRefOk(g, slots[i])
    ensures |r| == |Present(slots)|
    decreases |slots|
  {
    if slots == [] then []
    else
      assert TextureRefOk(g, slots[0]);
      if slots[0].None? then TexturesAt(g, slots[1..])
      else [g.textures[slots[0].value]] + TexturesAt(g, slots[1..])
  }

  lemma {:induction false} TexturesAtPresent(g: Graph, slots: seq<Option<nat>>)
    requires forall i :: 0 <= i < |slots| ==> TextureRefOk(g, slots[i])
    ensures forall p :: 0 <= p < |Present(slots)| ==>
              Present(slots)[p] < |g.textures| && TexturesAt(g, slots)[p] == g.textures[Present(slots)[p]]
    decreases |slots|
  {
    if slots != [] {
      TexturesAtPresent(g, slots[1..]);
      assert TextureRefOk(g, slots[0]);
    }
  }

  lemma AppendAssoc<T>(a: seq<T>, x: seq<T>, b: seq<T>)
    ensures (a + x) + b == a + (x + b)
  {
  }

  /** The texture list appends one table entry per slot and one node per
      non-null slot. */
  lemma {:induction false} TexturesLoadedClosed(g: Graph, slots: seq<Option<nat>>, st: LoadState)
    requires forall i :: 0 <= i < |slots| ==> TextureRefOk(g, slots[i])
    ensures LoadedTextures(g, slots, st).textures == st.textures + Renumbered(slots, |st.graph.textures|)
    ensures LoadedTextures(g, slots, st).graph.textures == st.graph.textures + TexturesAt(g, slots)
    decreases |slots|
  {
    if slots != [] {
      assert TextureRefOk(g, slots[0]);
      var st1 := LoadedTexture(g, slots[0], st);
      TexturesLoadedClosed(g, slots[1..], st1);
      var n := |st.graph.textures|;
      if slots[0].None? {
        AppendAssoc(st.textures, [None], Renumbered(slots[1..], n));
      } else {
        AppendAssoc(st.textures, [Some(n)], Renumbered(slots[1..], n + 1));
        AppendAssoc(st.graph.textures, [g.textures[slots[0].value]], TexturesAt(g, slots[1..]));
      }
    }
  }

  // ---------------------------------------------------------------------
  // Materials
  // ---------------------------------------------------------------------

  /** The material list appends each listed material, relocated. */
  lemma {:induction false} MaterialsLoadedClosed(g: Graph, hs: seq<nat>, textureIDs: map<Option<nat>, int>,
                                                 st: LoadState)
    requires forall i :: 0 <= i < |hs| ==> hs[i] < |g.materials|
    requires forall i :: 0 <= i < |hs| ==> TexturesInTable(g.materials[hs[i]], textureIDs, |st.textures|)
    ensures forall h :: 0 <= h < |st.graph.materials| ==>
              LoadedMaterials(g, hs, textureIDs, st).graph.materials[h] == st.graph.materials[h]
    ensures forall j :: 0 <= j < |hs| ==>
              LoadedMaterials(g, hs, textureIDs, st).graph.materials[|st.graph.materials| + j]
              == Relocated(g.materials[hs[j]], textureIDs, st.textures)
    decreases |hs|
  {
    if hs != [] {
      var st1 := st.WithMaterial(Relocated(g.materials[hs[0]], textureIDs, st.textures));
      MaterialsLoadedClosed(g, hs[1..], textureIDs, st1);
      var r := LoadedMaterials(g, hs, textureIDs, st);
      forall j | 1 <= j < |hs|
        ensures r.graph.materials[|st.graph.materials| + j] == Relocated(g.materials[hs[j]], textureIDs, st.textures)
      {
        assert hs[j] == hs[1..][j - 1];
        assert |st.graph.materials| + j == |st1.graph.materials| + (j - 1);
      }
    }
  }

  // ---------------------------------------------------------------------
  // Meshes and objects
  // ---------------------------------------------------------------------

  /** The non-null mesh slots of an object whose materials are registered
      below `n`. */
  lemma {:induction false} PresentInTable(g: Graph, slots: seq<Option<nat>>, materialIDs: map<nat, int>, n: nat)
    requires MeshesInTable(g, slots, materialIDs, n)
    ensures forall p :: 0 <= p < |Present(slots)| ==>
              Present(slots)[p] < |g.meshes| && 0 <= GetID(g.meshes[Present(slots)[p]].material, materialIDs) < n
    decreases |slots|
  {
    if slots != [] {
      MeshesInTableTail(g, slots, materialIDs, n);
      PresentInTable(g, slots[1..], materialIDs, n);
    }
  }

  /** The meshes in the slots, as loaded, nulls left out. */
  function MeshesAt(g: Graph, slots: seq<Option<nat>>, materialIDs: map<nat, int>): (r: seq<Mesh>)
    requires forall i :: 0 <= i < |slots| && slots[i].Some? ==>
               slots[i].value < |g.meshes| && GetID(g.meshes[slots[i].value].material, materialIDs) >= 0
    ensures |r| == |Present(slots)|
    decreases |slots|
  {
    if slots == [] then []
    else if slots[0].None? then MeshesAt(g, slots[1..], materialIDs)
    else [Relabeled(g.meshes[slots[0].value], materialIDs)] + MeshesAt(g, slots[1..], materialIDs)
  }

  lemma {:induction false} MeshesAtPresent(g: Graph, slots: seq<Option<nat>>, materialIDs: map<nat, int>)
    requires forall i :: 0 <= i < |slots| && slots[i].Some? ==>
               slots[i].value < |g.meshes| && GetID(g.meshes[slots[i].value].material, materialIDs) >= 0
    ensures forall p :: 0 <= p < |Present(slots)| ==>
              && Present(slots)[p] < |g.meshes| && GetID(g.meshes[Present(slots)[p]].material, materialIDs) >= 0
              && MeshesAt(g, slots, materialIDs)[p] == Relabeled(g.meshes[Present(slots)[p]], materialIDs)
    decreases |slots|
  {
    if slots != [] {
      assert forall i :: 0 <= i < |slots[1..]| ==> slots[1..][i] == slots[i + 1];
      MeshesAtPresent(g, slots[1..], materialIDs);
    }
  }

  /** `n` consecutive mesh handles from `base` on. */
  function Consecutive(base: nat, n: nat): (r: seq<Option<nat>>)
    ensures |r| == n
  {
    seq(n, p => Some(base + p))
  }

  /** One object's mesh slots append a fresh node per non-null slot, in
      order, and name them in the object being read. */
  lemma {:induction false} MeshesLoadedClosed(g: Graph, slots: seq<Option<nat>>, materialIDs: map<nat, int>,
                                              st: LoadState)
    requires MeshesInTable(g, slots, materialIDs, |st.graph.materials|)
    ensures LoadedMeshes(g, slots, materialIDs, st).graph.meshes == st.graph.meshes + MeshesAt(g, slots, materialIDs)
    ensures LoadedMeshes(g, slots, materialIDs, st).meshes
            == st.meshes + Consecutive(|st.graph.meshes|, |Present(slots)|)
    decreases |slots|
  {
    if slots != [] {
      MeshesInTableTail(g, slots, materialIDs, |st.graph.materials|);
      var st1 := LoadedMeshSlot(g, slots[0], materialIDs, st);
      MeshesLoadedClosed(g, slots[1..], materialIDs, st1);
      var n := |st.graph.meshes|;
      var k := |Present(slots[1..])|;
      if slots[0].Some? {
        var m := Relabeled(g.meshes[slots[0].value], materialIDs);
        AppendAssoc(st.graph.meshes, [m], MeshesAt(g, slots[1..], materialIDs));
        assert Consecutive(n, k + 1) == [Some(n)] + Consecutive(n + 1, k);
        AppendAssoc(st.meshes, [Some(n)], Consecutive(n + 1, k));
      }
    }
  }

  /** A loaded object holds, slot for slot, the non-null meshes of the
      saved slots, relabeled, in the mesh arena `lg`. */
  ghost predicate HoldsMeshes(lg: Graph, o: Object, g: Graph, slots: seq<Option<nat>>, materialIDs: map<nat, int>) {
    && |o.meshes| == |Present(slots)|
    && forall p :: 0 <= p < |o.meshes| ==>
         && o.meshes[p].Some? && o.meshes[p].value < |lg.meshes|
         && Present(slots)[p] < |g.meshes| && GetID(g.meshes[Present(slots)[p]].material, materialIDs) >= 0
         && lg.meshes[o.meshes[p].value] == Relabeled(g.meshes[Present(slots)[p]], materialIDs)
  }

  lemma HoldsMeshesGrow(lg: Graph, lg2: Graph, o: Object, g: Graph, slots: seq<Option<nat>>,
                        materialIDs: map<nat, int>)
    requires HoldsMeshes(lg, o, g, slots, materialIDs)
    requires |lg.meshes| <= |lg2.meshes| && forall h :: 0 <= h < |lg.meshes| ==> lg2.meshes[h] == lg.meshes[h]
    ensures HoldsMeshes(lg2, o, g, slots, materialIDs)
  {
  }

  /** The object list keeps the nodes already there. */
  lemma {:induction false} ObjectsLoadedKeep(g: Graph, os: seq<nat>, materialIDs: map<nat, int>, st: LoadState)
    requires forall i :: 0 <= i < |os| ==> os[i] < |g.objects|
    requires ObjectsInTable(g, os, materialIDs, |st.graph.materials|)
    ensures |LoadedObjects(g, os, materialIDs, st).graph.meshes| >= |st.graph.meshes|
    ensures forall h :: 0 <= h < |st.graph.meshes| ==>
              LoadedObjects(g, os, materialIDs, st).graph.meshes[h] == st.graph.meshes[h]
    ensures forall i :: 0 <= i < |st.graph.objects| ==>
              LoadedObjects(g, os, materialIDs, st).graph.objects[i] == st.graph.objects[i]
    decreases |os|
  {
    if os != [] {
      var slots := g.objects[os[0]].meshes;
      assert MeshesInTable(g, slots, materialIDs, |st.graph.materials|);
      MeshesLoadedClosed(g, slots, materialIDs, st.(meshes := []));
      var st1 := LoadedMeshes(g, slots, materialIDs, st.(meshes := [])).WithObject();
      ObjectsInTableTail(g, os, materialIDs, |st.graph.materials|);
      ObjectsLoadedKeep(g, os[1..], materialIDs, st1);
    }
  }

  lemma ObjectsInTableTail(g: Graph, os: seq<nat>, materialIDs: map<nat, int>, n: nat)
    requires os != [] && forall i :: 0 <= i < |os| ==> os[i] < |g.objects|
    requires ObjectsInTable(g, os, materialIDs, n)
    ensures ObjectsInTable(g, os[1..], materialIDs, n)
  {
    forall i | 0 <= i < |os[1..]|
      ensures MeshesInTable(g, g.objects[os[1..][i]].meshes, materialIDs, n)
    {
      assert os[1..][i] == os[i + 1];
    }
  }

  /** The object just read holds the non-null meshes of its slots. */
  lemma ObjectLoadedHolds(g: Graph, slots: seq<Option<nat>>, materialIDs: map<nat, int>, st: LoadState)
    requires MeshesInTable(g, slots, materialIDs, |st.graph.materials|)
    ensures var st1 := LoadedMeshes(g, slots, materialIDs, st.(meshes := [])).WithObject();
            HoldsMeshes(st1.graph, st1.graph.objects[|st.graph.objects|], g, slots, materialIDs)
  {
    MeshesLoadedClosed(g, slots, materialIDs, st.(meshes := []));
    MeshesAtPresent(g, slots, materialIDs);
  }

  lemma HoldsShift(lg: Graph, base: nat, g: Graph, os: seq<nat>, materialIDs: map<nat, int>)
    requires os != [] && forall i :: 0 <= i < |os| ==> os[i] < |g.objects|
    requires base + |os| <= |lg.objects|
    requires HoldsMeshes(lg, lg.objects[base], g, g.objects[os[0]].meshes, materialIDs)
    requires forall i :: 0 <= i < |os[1..]| ==>
               HoldsMeshes(lg, lg.objects[base + 1 + i], g, g.objects[os[1..][i]].meshes, materialIDs)
    ensures forall i :: 0 <= i < |os| ==> HoldsMeshes(lg, lg.objects[base + i], g, g.objects[os[i]].meshes, materialIDs)
  {
    forall i | 1 <= i < |os|
      ensures HoldsMeshes(lg, lg.objects[base + i], g, g.objects[os[i]].meshes, materialIDs)
    {
      assert os[i] == os[1..][i - 1];
      assert base + i == base + 1 + (i - 1);
    }
  }

  /** The object list appends one object per listed object, holding its
      non-null meshes. */
  lemma {:induction false} ObjectsLoadedHold(g: Graph, os: seq<nat>, materialIDs: map<nat, int>, st: LoadState)
    requires forall i :: 0 <= i < |os| ==> os[i] < |g.objects|
    requires ObjectsInTable(g, os, materialIDs, |st.graph.materials|)
    ensures forall i :: 0 <= i < |os| ==>
              HoldsMeshes(LoadedObjects(g, os, materialIDs, st).graph,
                          LoadedObjects(g, os, materialIDs, st).graph.objects[|st.graph.objects| + i],
                          g, g.objects[os[i]].meshes, materialIDs)
    decreases |os|
  {
    if os != [] {
      var slots := g.objects[os[0]].meshes;
      assert MeshesInTable(g, slots, materialIDs, |st.graph.materials|);
      var st1 := LoadedMeshes(g, slots, materialIDs, st.(meshes := [])).WithObject();
      ObjectLoadedHolds(g, slots, materialIDs, st);
      ObjectsInTableTail(g, os, materialIDs, |st.graph.materials|);
      ObjectsLoadedHold(g, os[1..], materialIDs, st1);
      ObjectsLoadedKeep(g, os[1..], materialIDs, st1);
      var r := LoadedObjects(g, os[1..], materialIDs, st1);
      assert LoadedObjects(g, os, materialIDs, st) == r;
      HoldsMeshesGrow(st1.graph, r.graph, st1.graph.objects[|st.graph.objects|], g, slots, materialIDs);
      HoldsShift(r.graph, |st.graph.objects|, g, os, materialIDs);
    }
  }

  // ---------------------------------------------------------------------
  // Instances
  // ---------------------------------------------------------------------

  /** The instances in the slots, as loaded, nulls left out. */
  function InstancesAt(g: Graph, slots: seq<Option<nat>>, objectIDs: map<nat, int>): (r: seq<Instance>)
    requires forall i :: 0 <= i < |slots| && slots[i].Some? ==>
               slots[i].value < |g.instances| && GetID(g.instances[slots[i].value].obj, objectIDs) >= 0
    ensures |r| == |Present(slots)|
    decreases |slots|
  {
    if slots == [] then []
    else if slots[0].None? then InstancesAt(g, slots[1..], objectIDs)
    else [Instance(g.instances[slots[0].value].xfm, GetID(g.instances[slots[0].value].obj, objectIDs))]
         + InstancesAt(g, slots[1..], objectIDs)
  }

  lemma {:induction false} InstancesAtPresent(g: Graph, slots: seq<Option<nat>>, objectIDs: map<nat, int>)
    requires forall i :: 0 <= i < |slots| && slots[i].Some? ==>
               slots[i].value < |g.instances| && GetID(g.instances[slots[i].value].obj, objectIDs) >= 0
    ensures forall p :: 0 <= p < |Present(slots)| ==>
              && Present(slots)[p] < |g.instances| && GetID(g.instances[Present(slots)[p]].obj, objectIDs) >= 0
              && InstancesAt(g, slots, objectIDs)[p]
                 == Instance(g.instances[Present(slots)[p]].xfm, GetID(g.instances[Present(slots)[p]].obj, objectIDs))
    decreases |slots|
  {
    if slots != [] {
      assert forall i :: 0 <= i < |slots[1..]| ==> slots[1..][i] == slots[i + 1];
      InstancesAtPresent(g, slots[1..], objectIDs);
    }
  }

  /** The instance list appends one slot per saved slot, null where the
      saved slot is null, and one node per non-null slot. */
  lemma {:induction false} InstancesLoadedClosed(g: Graph, slots: seq<Option<nat>>, objectIDs: map<nat, int>,
                                                 st: LoadState)
    requires InstancesInTable(g, slots, objectIDs, |st.graph.objects|)
    ensures LoadedInstances(g, slots, objectIDs, st).instances
            == st.instances + Renumbered(slots, |st.graph.instances|)
    ensures LoadedInstances(g, slots, objectIDs, st).graph.instances
            == st.graph.instances + InstancesAt(g, slots, objectIDs)
    decreases |slots|
  {
    if slots != [] {
      InstancesInTableTail(g, slots, objectIDs, |st.graph.objects|);
      var st1 := LoadedInstance(g, slots[0], objectIDs, st);
      InstancesLoadedClosed(g, slots[1..], objectIDs, st1);
      var n := |st.graph.instances|;
      if slots[0].None? {
        AppendAssoc(st.instances, [None], Renumbered(slots[1..], n));
      } else {
        var inst := g.instances[slots[0].value];
        AppendAssoc(st.instances, [Some(n)], Renumbered(slots[1..], n + 1));
        AppendAssoc(st.graph.instances, [Instance(inst.xfm, GetID(inst.obj, objectIDs))],
                    InstancesAt(g, slots[1..], objectIDs));
      }
    }
  }
}
