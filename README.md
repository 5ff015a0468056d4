# miniScene store and miniSubdivide, modelled in Dafny

This project models two parts of the miniScene repository and proves properties of them.

**The `.mini` scene store** (`miniScene/Scene.cpp`):
- `Scene::save` writes a scene as one sequential stream:
  - a leading magic word;
  - the texture table, with a validity flag per slot;
  - the lights;
  - the material list, each material as a variant tag followed by that variant's fields;
  - the objects, each with its mesh slots;
  - the instance slots;
  - a trailing magic word.
- `Scene::load` reads the stream back.
  - It accepts files of format generations 12 and 11.
  - It rebuilds shared nodes from integer IDs.
  - It fails on a wrong leading magic or a wrong trailing magic.
- Eight material variants each have a `write`/`read` pair.
- `materialTagOf` and `createMaterialFromTag` map between variants and their tags.
- `getID` looks a texture up in the registry of the `SerializedScene`.

The stream is modelled as a sequence of tokens, not bytes:
- `Word` is a `size_t` magic word.
- `Count` is a `size_t` count.
- `Int` is an `int` flag, tag or ID.
- `Field` is one fixed-layout element.
- `Blob` is a `writeVector` of elements.
- `Tris` is a vector of index triples.

The writer (`Stream.Writer`) is an append-only buffer. The reader (`Stream.Reader`) is a cursor that fails with `Truncated` when no token is left, or with `Malformed` when the next token is of another kind. Shared nodes are arena handles (`nat`) into the sequences of a `SceneGraph.Graph`, and a null `shared_ptr` is `None`.

Each loop of `save` and `load` is a method in `Store`:
- A `Write*` method is proved to append exactly what a `Format.Encode*` function says.
- A `Read*` method is proved to consume exactly what a `Format.Decode*` function says.

The lemmas about those functions prove:
- the full round trip `load(save(s))`, with sharing reconstructed from the IDs;
- when save and load succeed, and which error each one stops with;
- the magic word at both ends;
- that a generation-11 file is read as all-Disney;
- that every loaded scene is well formed.

**miniSubdivide** (`tools/subdivide.cpp`, the core at lines 72-201):
- It splits every triangle of every mesh into four.
- There is one new vertex per distinct edge midpoint and one per referenced original vertex. They are found through a per-mesh map from string keys.
- Three identity maps ensure that each instance, object and mesh is processed once and then reused.

In the model:
- The string keys are `std::to_string` and `midpointIndexToString`, modelled as strings. A `VertexKeys.VertexKey` (`Orig(i)` or `Edge(x, y)`) records what each key stands for, and the encoding is proved injective up to edge orientation.
- Vertex positions have a generic type `V`.
- The float midpoint `(a+b)/2.0f` is an uninterpreted parameter `mid`.
- The triangle loop is `SubdivideMesh.SubdivideTriangles`. It uses `array`s for the source's local `i[3]`, `j[3]` and `v[3]`.
- The instance loop is `SubdivideScene.Subdivide`.

## Model

| member | source | states |
|---|---|---|
| Format.MagicOf | miniScene/Scene.cpp:24-32 | generation 12 has magic `expected_magic` = 4321000000+12; generation 11 has `expected_magic-1` |
| Format.VersionOf | miniScene/Scene.cpp:508-516 | a leading magic is accepted iff it is `expected_magic` (generation 12) or `expected_magic-1` (generation 11); the generation's magic is that word; anything else is `WrongMagic` |
| Materials.MaterialTagOf | miniScene/Scene.cpp:63-76 | fails (`UnsupportedMaterial`) exactly for a material outside the eight variants; otherwise the tag lies in DISNEY..DIELECTRIC |
| Materials.CreateMaterialFromTag | miniScene/Scene.cpp:78-91 | succeeds iff the tag is one of DISNEY..DIELECTRIC, so INVALID=0 and unknown tags fail with `UnsupportedTag(tag)`; the created material has that same tag |
| Materials.TagRoundTrip | miniScene/Scene.cpp:52-91 | for every supported material, creating from its tag gives the same variant |
| Materials.TagsDistinguishVariants | miniScene/Scene.cpp:52-76 | two supported materials have the same tag iff they are the same variant (the enum is collision-free) |
| Materials.FromParams | miniScene/Scene.cpp:111-119 | the fields a `read` fills in are exactly the values read, in order, on a material of the prototype's variant; Disney gets the two resolved textures |
| Materials.FromOwnParams | miniScene/Scene.cpp:102-119 | refilling a material from its own fields (and, for Disney, its own textures) gives it back unchanged |
| Materials.ParamsRoundTrip | miniScene/Scene.cpp:102-221 | reading `n` fields after writing `n` fields gives back the same values in the same order and leaves the rest of the stream untouched |
| Materials.FieldsRoundTrip | miniScene/Scene.cpp:223-258 | every variant's `read` consumes exactly what its `write` produced; with texture IDs in range, it restores every field, and Disney's textures become the table entries at their IDs |
| Materials.DisneyRejectsBadTextureId | miniScene/Scene.cpp:246-257 | a Disney colour or alpha texture ID outside `[0, textures.size())` makes the read fail with `TextureIdOutOfRange` (the asserts) |
| Materials.WriteMaterial | miniScene/Scene.cpp:223-235 | appends the variant's fields in write order, plus Disney's colour and alpha texture IDs from `getID` |
| Materials.ReadParams | miniScene/Scene.cpp:237-245 | reads `n` fields one by one, as the field parser on the unread tokens says, failing on the first missing one |
| Materials.ReadMaterial | miniScene/Scene.cpp:237-258 | the variant's `read`: the fields, then for Disney the two texture IDs with their range checks |
| Stream.Writer.constructor | miniScene/Scene.cpp:388 | a new output stream is empty |
| Stream.Writer.Write | miniScene/Scene.cpp:393 | a write appends one token and changes nothing else |
| Stream.Reader.constructor | miniScene/Scene.cpp:503 | a new input cursor stands at the first token of the file |
| Stream.Reader.ReadWord | miniScene/Scene.cpp:508 | consumes one magic word, or fails (`Truncated`/`Malformed`) without a value |
| Stream.Reader.ReadCount | miniScene/Scene.cpp:522 | consumes one `size_t` count, or fails |
| Stream.Reader.ReadInt | miniScene/Scene.cpp:528 | consumes one `int`, or fails |
| Stream.Reader.ReadField | miniScene/Scene.cpp:533 | consumes one fixed-layout element, or fails |
| Stream.Reader.ReadBlob | miniScene/Scene.cpp:536 | consumes one vector of elements, or fails |
| Stream.Reader.ReadTris | miniScene/Scene.cpp:612 | consumes one vector of index triples, or fails |
| Stream.ReadsWhatWasWritten | miniScene/Scene.cpp:393-508 | each kind of token reads back as the value written and leaves the rest of the stream unread |
| Store.WriteTexture | miniScene/Scene.cpp:404-407 | appends a texture's size, format, filter mode and data |
| Store.WriteTextureSlot | miniScene/Scene.cpp:400-408 | a null texture slot is flag 0; a texture is flag 1 followed by its content |
| Store.WriteTextures | miniScene/Scene.cpp:399-409 | appends the encoding of every registered texture slot in list order |
| Store.WriteLights | miniScene/Scene.cpp:414-426 | appends the quad and directional lights and the environment light (flag, transform, texture); an environment light without a texture fails with `NullEnvMapTexture` (the assert) |
| Store.WriteOneMaterial | miniScene/Scene.cpp:436-439 | appends the tag and the variant's fields, or fails with `UnsupportedMaterial` |
| Store.WriteMaterials | miniScene/Scene.cpp:432-452 | appends every listed material in order, stopping at the first unsupported one |
| Store.WriteMeshSlot | miniScene/Scene.cpp:461-472 | a null mesh slot is flag 0; a mesh is flag 1, its four buffers and its material ID, and an unregistered material (ID -1, the assert) fails with `UnregisteredMaterial` |
| Store.WriteMeshSlots | miniScene/Scene.cpp:461-472 | appends every mesh slot of an object in order, stopping at the first failure |
| Store.WriteObject | miniScene/Scene.cpp:460-472 | appends an object's slot count and then its slots |
| Store.WriteObjects | miniScene/Scene.cpp:458-473 | appends every listed object in order |
| Store.WriteInstanceSlot | miniScene/Scene.cpp:480-484 | a null instance slot is flag 0; an instance is flag 1, its transform and its object's ID |
| Store.WriteInstances | miniScene/Scene.cpp:479-485 | appends every instance slot in order |
| Store.Save | miniScene/Scene.cpp:386-499 | `Scene::save` writes exactly `SaveSpec`: an error when the file cannot be opened, a section fails or the stream is bad at the end, else the whole encoding |
| Store.ReadTexture | miniScene/Scene.cpp:532-537 | reads a texture's four parts as `DecodeTexture` says |
| Store.ReadTextures | miniScene/Scene.cpp:521-539 | reads `n` texture slots; flag 0 gives a null entry, any other flag a new texture node at the next table position |
| Store.ReadLights | miniScene/Scene.cpp:544-555 | reads the lights; a nonzero environment flag gives an environment light with a texture node of its own |
| Store.ReadOneMaterial | miniScene/Scene.cpp:565-572 | reads one material: no tag under generation 11 (Disney), else a tag that must name a variant, then that variant's `read` |
| Store.ReadNextMaterial | miniScene/Scene.cpp:562-595 | one pass of the material loop: after it, the rest of the loop on the remaining input gives what the whole loop gave before |
| Store.ReadMaterials | miniScene/Scene.cpp:560-595 | reads `n` materials and appends them to the material arena in order |
| Store.ReadMesh | miniScene/Scene.cpp:611-619 | reads a mesh's four buffers and its material ID, which must lie in `[0, materials.size())` (the asserts), as `MaterialIdOutOfRange` otherwise |
| Store.ReadNextMeshSlot | miniScene/Scene.cpp:606-621 | one pass of the mesh loop: a zero flag is skipped without a slot; otherwise the mesh is read and appended |
| Store.ReadMeshes | miniScene/Scene.cpp:606-621 | reads an object's `numMeshes` slots as `DecodeMeshes` says |
| Store.ReadObjects | miniScene/Scene.cpp:600-623 | reads `n` objects, each its count and then its mesh slots |
| Store.ReadInstance | miniScene/Scene.cpp:635-638 | reads an instance's transform and object ID, and an ID outside `[0, objects.size())` is an error |
| Store.ReadInstances | miniScene/Scene.cpp:628-639 | reads `n` instance slots; flag 0 gives a null slot at that position |
| Store.ReadFromMaterials | miniScene/Scene.cpp:557-652 | reads from the materials to the end marker, as `DecodeFromMaterials` says |
| Store.Load | miniScene/Scene.cpp:501-653 | `Scene::load` returns exactly `LoadSpec` of the file: `CannotOpen` when it cannot be opened, else the decoded scene or the first error |
| Store.JoinOnto | miniScene/Scene.cpp:431-452 | appending a successful section extends the output; a failing section makes the whole save fail with its error |
| Store.MaterialsCut | miniScene/Scene.cpp:432-452 | the material section splits at any position into the encodings of its two halves |
| Store.MeshSlotsCut | miniScene/Scene.cpp:461-472 | the mesh-slot section splits at any position into the encodings of its two halves |
| Store.ObjectsCut | miniScene/Scene.cpp:458-473 | the object section splits at any position into the encodings of its two halves |
| Store.TexturesCut | miniScene/Scene.cpp:399-409 | the texture section splits at any position into the encodings of its two halves |
| Store.InstancesCut | miniScene/Scene.cpp:479-485 | the instance section splits at any position into the encodings of its two halves |
| Serialized.GetIDIsPosition | miniScene/Scene.cpp:93-99 | `getID` (`Materials.GetID`) over a registry consistent with its list is -1 exactly for a node that is not in the list, and otherwise the node's position in the list, so the list at that ID is the node again |
| Serialized.GetIDInjective | miniScene/Scene.cpp:469-484 | two registered nodes get the same ID iff they are the same node |
| SceneGraph.Present | miniScene/Scene.cpp:606-621 | the non-null entries of a slot list, never more than the slots |
| SaveChecks.JoinOk | miniScene/Scene.cpp:386-499 | a sequence of sections succeeds iff every section does, and the first failure is the one reported |
| SaveChecks.MaterialsSaveIff | miniScene/Scene.cpp:431-452 | the material section succeeds iff every listed material has a `write` in the generation (all eight under 12, only Disney under 11); otherwise the error is `UnsupportedMaterial` |
| SaveChecks.MeshSlotsSaveIff | miniScene/Scene.cpp:461-472 | an object's slots save iff every non-null mesh's material is registered; otherwise the error is `UnregisteredMaterial` |
| SaveChecks.ObjectsSaveIff | miniScene/Scene.cpp:457-473 | the object section saves iff every mesh of every listed object has a registered material |
| SaveChecks.SaveSucceedsIff | miniScene/Scene.cpp:414-473 | the encoding succeeds iff the environment light has a texture, every material can be written and every mesh's material is registered; it names the first failing section's error |
| SaveChecks.CompleteRegistriesSaveObjects | miniScene/Scene.cpp:457-473 | when the registries hold every material reachable from the objects, the object section always saves |
| SaveChecks.SaveOutcome | miniScene/Scene.cpp:386-499 | `CannotOpen` when the file does not open, the section's error, `WriteFailed` when the stream is bad at the end; on success the output is the encoding and its first and last tokens are `expected_magic` |
| SaveLoad.RegistriesCoverScene | miniScene/Scene.cpp:431-485 | complete, consistent registries put every texture, material and object ID that the save writes inside its table |
| SaveLoad.SceneLayout | miniScene/Scene.cpp:393-496 | the saved encoding is the magic, then the sections in order, then the magic again |
| SaveLoad.FrontReadsBack | miniScene/Scene.cpp:518-556 | the texture and light sections read back into the stage-one state and leave the rest of the stream |
| SaveLoad.MaterialsReadBack | miniScene/Scene.cpp:557-596 | the material section reads back into the loaded material arena |
| SaveLoad.ObjectsReadBack | miniScene/Scene.cpp:597-624 | the object section reads back into the loaded objects and meshes |
| SaveLoad.InstancesReadBack | miniScene/Scene.cpp:625-640 | the instance section reads back into the loaded instances |
| SaveLoad.DecodeOfSections | miniScene/Scene.cpp:501-652 | a file whose sections each decode decodes to the trailer check on the last state |
| SaveLoad.LayoutDecodes | miniScene/Scene.cpp:501-652 | for any magic and any sections that decode in turn, the whole file decodes to the trailer check on the final state |
| SaveLoad.LayoutReadsBack | miniScene/Scene.cpp:501-652 | everything a save writes before its trailer reads back into the reloaded scene, whatever follows |
| SaveLoad.SaveLoadRoundTrip | miniScene/Scene.cpp:386-653 | loading what save wrote (in either generation) gives back the reloaded scene: null slots in place, sharing rebuilt from the IDs |
| SaveLoad.SavedTrailer | miniScene/Scene.cpp:496 | the last token of a saved file is the magic, and changing it only changes the outcome of the trailer check |
| SaveLoad.TruncatedSaveFails | miniScene/Scene.cpp:645-650 | a saved file cut before its last magic fails to load with `Truncated` |
| SaveLoad.CorruptEndFails | miniScene/Scene.cpp:645-650 | a saved file whose trailing word is neither accepted magic fails with `CorruptEnd` |
| SaveLoad.AnyAcceptedTrailer | miniScene/Scene.cpp:645-650 | either accepted magic at the end loads, regardless of the leading one |
| LoadChecks.ReadFieldsShape | miniScene/Scene.cpp:237-258 | a material that was read is of the prototype's variant, and Disney's two textures come from the table |
| LoadChecks.BuiltScene | miniScene/Scene.cpp:641-652 | a load state whose handles all point into its arenas gives a well-formed scene |
| LoadChecks.BuiltWithNullTexture | miniScene/Scene.cpp:529-530 | appending a null texture entry keeps the load state well formed |
| LoadChecks.BuiltWithTexture | miniScene/Scene.cpp:532-537 | appending a texture keeps the load state well formed |
| LoadChecks.BuiltWithMaterial | miniScene/Scene.cpp:571-594 | appending a material whose textures are loaded keeps the load state well formed |
| LoadChecks.BuiltWithMesh | miniScene/Scene.cpp:611-620 | appending a mesh whose material is loaded keeps the load state well formed |
| LoadChecks.BuiltWithObject | miniScene/Scene.cpp:604-622 | closing an object keeps the load state well formed |
| LoadChecks.BuiltWithNullInstance | miniScene/Scene.cpp:631-633 | appending a null instance slot keeps the load state well formed |
| LoadChecks.BuiltWithInstance | miniScene/Scene.cpp:635-638 | appending an instance of a loaded object keeps the load state well formed |
| LoadChecks.TexturesBuild | miniScene/Scene.cpp:521-539 | the texture loop keeps the load state well formed and its generation unchanged |
| LoadChecks.LightsBuild | miniScene/Scene.cpp:544-555 | reading the lights keeps the load state well formed |
| LoadChecks.MaterialBuilds | miniScene/Scene.cpp:564-572 | a material read references only loaded textures, and under generation 11 it is Disney |
| LoadChecks.MaterialsBuild | miniScene/Scene.cpp:560-595 | the material loop keeps the load state well formed |
| LoadChecks.MeshChecked | miniScene/Scene.cpp:616-619 | a mesh read references a loaded material (the asserts) |
| LoadChecks.MeshBuilds | miniScene/Scene.cpp:611-620 | appending a mesh that was read keeps the load state well formed |
| LoadChecks.MeshesBuild | miniScene/Scene.cpp:606-621 | the mesh loop keeps the load state well formed |
| LoadChecks.ObjectsBuild | miniScene/Scene.cpp:600-623 | the object loop keeps the load state well formed |
| LoadChecks.InstanceChecked | miniScene/Scene.cpp:637 | an instance read references a loaded object |
| LoadChecks.InstancesBuild | miniScene/Scene.cpp:628-639 | the instance loop keeps the load state well formed |
| LoadChecks.FromMaterialsBuild | miniScene/Scene.cpp:557-652 | from the materials on, a successful load is well formed, all-Disney under generation 11 |
| LoadChecks.LoadedScenesAreWellFormed | miniScene/Scene.cpp:501-653 | every scene `load` returns is well formed; a generation-11 file yields only Disney materials |
| LoadChecks.LeadingMagicDecides | miniScene/Scene.cpp:508-516 | an empty file is `Truncated`, a non-word start is `Malformed`, any other word than the two magics is `WrongMagic`; a successful load started with one of them |
| Reload.LoadedTable | miniScene/Scene.cpp:521-539 | the texture table load builds has one entry per saved texture slot |
| Reload.TexturesStage | miniScene/Scene.cpp:518-540 | after the textures the load state holds exactly the saved non-null textures and the renumbered table |
| Reload.MaterialsStage | miniScene/Scene.cpp:557-596 | the material stage loads the listed materials against that table |
| Reload.ObjectsStage | miniScene/Scene.cpp:597-624 | the object stage loads the listed objects against the loaded materials |
| Reload.InstancesStage | miniScene/Scene.cpp:625-640 | the instance stage loads the instance slots against the loaded objects |
| Reload.ReloadedInstances | miniScene/Scene.cpp:478-485 | after the round trip there are as many instance slots, null exactly where they were, each with its transform and its object at the saved object ID |
| Reload.InstancesClosed | miniScene/Scene.cpp:628-639 | the reloaded instance slots are the saved ones numbered consecutively |
| Reload.PlacedObjectsRegistered | miniScene/Scene.cpp:484 | every placed object has an ID in range, naming that object |
| Reload.SlotsReloaded | miniScene/Scene.cpp:628-639 | slot for slot, nulls stay null and every instance comes back with its transform and object ID |
| Reload.ReloadedInstancesFresh | miniScene/Scene.cpp:635 | two non-null slots get the same loaded instance iff they are the same slot (`load` makes one instance per slot) |
| Reload.RenumberedDistinct | miniScene/Scene.cpp:628-639 | distinct non-null slots get distinct new numbers |
| Reload.ReloadedObjectSharing | miniScene/Scene.cpp:484-637 | two reloaded instances reference the same loaded object iff the saved instances referenced the same object |
| Reload.ReloadedObjects | miniScene/Scene.cpp:597-624 | each loaded object holds the saved object's non-null meshes in order, null slots filtered out, each referencing the loaded material at its saved material ID, so meshes saved with the same ID share one loaded material |
| Reload.ReloadedMaterials | miniScene/Scene.cpp:431-452 | each loaded material is the saved one relocated into the loaded texture table |
| Reload.ReloadedTextures | miniScene/Scene.cpp:518-556 | the loaded textures are the saved non-null textures, then the environment light's texture when there is one |
| Reload.ReloadedTextureRef | miniScene/Scene.cpp:233-256 | a registered texture reference comes back as null iff it was null, and otherwise as a node with the same content |
| Reload.ReloadedTextureSharing | miniScene/Scene.cpp:398-409 | two registered textures come back as the same node iff they were the same node |
| Reload.ReloadedMeshMaterial | miniScene/Scene.cpp:469-619 | the material a reloaded mesh references is in range and equals the saved mesh's material, relocated into the loaded texture table |
| Reload.PresentIn | miniScene/Scene.cpp:606-621 | every kept mesh comes from some saved slot |
| Reload.ReloadedLights | miniScene/Scene.cpp:414-426 | the quad and directional lights come back unchanged, and the environment light with its transform and a texture of the same content |
| ReloadFacts.Renumbered | miniScene/Scene.cpp:628-639 | the slot list keeps its length |
| ReloadFacts.RenumberedNulls | miniScene/Scene.cpp:630-633 | renumbering keeps nulls exactly where they were |
| ReloadFacts.RenumberedPositions | miniScene/Scene.cpp:628-639 | a non-null slot's new number points at its entry among the non-null slots |
| ReloadFacts.RenumberedIncreasing | miniScene/Scene.cpp:628-639 | new numbers increase with slot position |
| ReloadFacts.PresentBounded | miniScene/Scene.cpp:606-621 | bounds on the slots carry over to the kept entries |
| ReloadFacts.TexturesAt | miniScene/Scene.cpp:521-539 | one loaded texture per non-null slot |
| ReloadFacts.TexturesAtPresent | miniScene/Scene.cpp:532-537 | each loaded texture is the saved texture at its slot |
| ReloadFacts.TexturesLoadedClosed | miniScene/Scene.cpp:521-539 | the texture loop appends the renumbered table and the non-null textures |
| ReloadFacts.MaterialsLoadedClosed | miniScene/Scene.cpp:560-595 | the material loop keeps earlier materials and appends the relocated listed ones |
| ReloadFacts.PresentInTable | miniScene/Scene.cpp:616-619 | every kept mesh's material ID is in range |
| ReloadFacts.MeshesAt | miniScene/Scene.cpp:606-621 | one loaded mesh per non-null slot |
| ReloadFacts.MeshesAtPresent | miniScene/Scene.cpp:611-619 | each loaded mesh is the saved mesh with its material ID |
| ReloadFacts.Consecutive | miniScene/Scene.cpp:620 | the new mesh slots of an object are consecutive handles |
| ReloadFacts.MeshesLoadedClosed | miniScene/Scene.cpp:606-621 | the mesh loop appends the kept meshes and one consecutive slot per mesh |
| ReloadFacts.HoldsMeshesGrow | miniScene/Scene.cpp:600-623 | an object loaded earlier keeps its meshes while later objects load |
| ReloadFacts.ObjectsLoadedKeep | miniScene/Scene.cpp:600-623 | the object loop keeps every mesh and object loaded before |
| ReloadFacts.ObjectsInTableTail | miniScene/Scene.cpp:600-623 | what makes an object list loadable holds for its tail |
| ReloadFacts.ObjectLoadedHolds | miniScene/Scene.cpp:603-622 | a freshly loaded object holds its saved meshes |
| ReloadFacts.HoldsShift | miniScene/Scene.cpp:600-623 | one object followed by the rest holds every object in place |
| ReloadFacts.ObjectsLoadedHold | miniScene/Scene.cpp:600-623 | every object loaded by the loop holds its saved meshes |
| ReloadFacts.InstancesAt | miniScene/Scene.cpp:628-639 | one loaded instance per non-null slot |
| ReloadFacts.InstancesAtPresent | miniScene/Scene.cpp:635-638 | each loaded instance has the saved transform and object ID |
| ReloadFacts.InstancesLoadedClosed | miniScene/Scene.cpp:628-639 | the instance loop appends the renumbered slots and the loaded instances |
| RoundTrip.TextureRoundTrip | miniScene/Scene.cpp:404-537 | a texture's four writes read back to the same texture |
| RoundTrip.LoadedTextures | miniScene/Scene.cpp:521-539 | loading textures adds one table entry per slot and touches nothing else |
| RoundTrip.TextureSlotRoundTrip | miniScene/Scene.cpp:400-538 | one written texture slot reads back as one loop pass |
| RoundTrip.TexturesRoundTrip | miniScene/Scene.cpp:398-539 | the texture section reads back completely |
| RoundTrip.LoadedLights | miniScene/Scene.cpp:544-555 | loading the lights touches nothing but the lights and textures |
| RoundTrip.LightsRoundTrip | miniScene/Scene.cpp:414-555 | the light section reads back; a saved environment light always has a texture |
| RoundTrip.LoadedMaterials | miniScene/Scene.cpp:560-595 | loading materials adds one per listed material and touches nothing else |
| RoundTrip.MaterialRoundTrip | miniScene/Scene.cpp:436-572 | one material reads back relocated, in either generation |
| RoundTrip.MaterialsRoundTrip | miniScene/Scene.cpp:431-595 | the material section reads back completely |
| RoundTrip.MeshesInTableTail | miniScene/Scene.cpp:461-472 | what makes mesh slots loadable holds for their tail |
| RoundTrip.LoadedMeshes | miniScene/Scene.cpp:606-621 | loading an object's meshes touches nothing but meshes |
| RoundTrip.MeshSlotRoundTrip | miniScene/Scene.cpp:462-620 | one written mesh slot reads back as one loop pass, a null one adding nothing |
| RoundTrip.MeshesRoundTrip | miniScene/Scene.cpp:461-621 | an object's mesh slots read back completely |
| RoundTrip.LoadedObjects | miniScene/Scene.cpp:600-623 | loading objects adds one object per listed one and touches nothing but meshes and objects |
| RoundTrip.ObjectRoundTrip | miniScene/Scene.cpp:460-622 | one written object reads back as one loop pass |
| RoundTrip.ObjectsRoundTrip | miniScene/Scene.cpp:457-623 | the object section reads back completely |
| RoundTrip.InstancesInTableTail | miniScene/Scene.cpp:479-485 | what makes instance slots loadable holds for their tail |
| RoundTrip.LoadedInstances | miniScene/Scene.cpp:628-639 | loading instances adds one slot per saved slot and touches nothing but instances |
| RoundTrip.InstanceSlotRoundTrip | miniScene/Scene.cpp:480-638 | one written instance slot reads back as one loop pass, a null one as a null slot |
| RoundTrip.InstancesRoundTrip | miniScene/Scene.cpp:478-639 | the instance section reads back completely |
| VertexKeys.DigitChar | tools/subdivide.cpp:36 | a digit below ten is written as its decimal character |
| VertexKeys.NatToString | tools/subdivide.cpp:36 | `std::to_string` of a natural number is a non-empty string of digits |
| VertexKeys.DigitsValueOfNatToString | tools/subdivide.cpp:36 | the digits of `n` denote `n` |
| VertexKeys.NatToStringInjective | tools/subdivide.cpp:36 | two naturals have the same decimal string iff they are equal |
| VertexKeys.IntToString | tools/subdivide.cpp:150 | `std::to_string` of an int is non-empty and comma-free: digits, or a minus sign and digits |
| VertexKeys.IntToStringInjective | tools/subdivide.cpp:150 | two ints have the same string iff they are equal |
| VertexKeys.MidpointIndexToString | tools/subdivide.cpp:33-39 | an edge key always holds a comma |
| VertexKeys.SplitAtComma | tools/subdivide.cpp:36-38 | two comma-free parts joined by a comma are recovered from the join |
| VertexKeys.MidpointKeyIff | tools/subdivide.cpp:33-39 | two edge keys are equal iff the index pairs are equal or swapped, so in particular the key does not depend on orientation |
| VertexKeys.OrigKeyIsNotEdgeKey | tools/subdivide.cpp:135-150 | an original-vertex key never equals an edge key |
| VertexKeys.KeyStringIff | tools/subdivide.cpp:135-150 | two vertex keys collide in `vertexMap` iff they name the same original vertex or the same unordered edge |
| SubdivideMesh.Midpoints | tools/subdivide.cpp:130-146 | the midpoint loop yields one index per edge processed |
| SubdivideMesh.Originals | tools/subdivide.cpp:148-161 | the corner loop yields one index per corner processed |
| SubdivideMesh.ExtendsTrans | tools/subdivide.cpp:117-176 | the vertex map and vertex list only grow |
| SubdivideMesh.InternShape | tools/subdivide.cpp:136-145 | looking a key up returns its index, and a new key's index is the vertex count before the push |
| SubdivideMesh.InternKeepsWf | tools/subdivide.cpp:136-145 | a lookup-or-insert keeps the map injective, its values in range and each vertex the meaning of its key |
| SubdivideMesh.MidpointsShape | tools/subdivide.cpp:130-146 | after the midpoint loop every edge key of the triangle maps to its `j[k]`, and only edge keys of this triangle were added |
| SubdivideMesh.MidpointsKeepWf | tools/subdivide.cpp:130-146 | the midpoint loop keeps the vertex map well formed |
| SubdivideMesh.OriginalsShape | tools/subdivide.cpp:148-161 | after the corner loop every corner's key maps to its new `i[k]`, and only original keys of this triangle were added |
| SubdivideMesh.OriginalsKeepWf | tools/subdivide.cpp:148-161 | the corner loop keeps the vertex map well formed |
| SubdivideMesh.ExpectedStable | tools/subdivide.cpp:163-175 | the four subtriangles of a triangle do not change when later triangles only add keys |
| SubdivideMesh.SplitTriangleShape | tools/subdivide.cpp:119-175 | one triangle appends exactly `(i_k, j_k, j_(k+2)%3)` for k = 0..2 and `(j_0, j_1, j_2)`, and its midpoints are appended before its original vertices |
| SubdivideMesh.SplitTriangleKeepsWf | tools/subdivide.cpp:119-175 | one triangle keeps the vertex map well formed |
| SubdivideMesh.SubdividedKeepsWf | tools/subdivide.cpp:117-176 | the whole triangle loop keeps the vertex map well formed |
| SubdivideMesh.SubdividedShape | tools/subdivide.cpp:117-176 | every input triangle's four subtriangles appear in order, and every key comes from some input triangle |
| SubdivideMesh.CoversStep | tools/subdivide.cpp:117-176 | one more triangle extends the covered prefix |
| SubdivideMesh.FromTrianglesStep | tools/subdivide.cpp:117-176 | one more triangle adds only its own keys |
| SubdivideMesh.SubdivisionFacts | tools/subdivide.cpp:110-179 | the output has exactly `4·n` triangles, all indices inside the new vertex list, one vertex per distinct key (no two keys naming the same vertex or unordered edge), each vertex the original or midpoint its key names, and triangle `n`'s four subtriangles at positions `4n..4n+3` |
| SubdivideMesh.CornerArrays | tools/subdivide.cpp:124-128 | fills `i[3]` with the triangle's corner indices and `v[3]` with their vertices |
| SubdivideMesh.AddMidpoints | tools/subdivide.cpp:130-146 | the midpoint loop over `k`, filling `j[3]`, as `Midpoints` says |
| SubdivideMesh.AddCorners | tools/subdivide.cpp:148-161 | the corner loop over `k`, overwriting `i[3]` in place, as `Originals` says |
| SubdivideMesh.AddSubtriangles | tools/subdivide.cpp:162-175 | appends the three corner triangles and the middle one |
| SubdivideMesh.SubdivideTriangle | tools/subdivide.cpp:119-175 | one pass of the triangle loop, as `SplitTriangle` says |
| SubdivideMesh.SubdivideTriangles | tools/subdivide.cpp:110-179 | the triangle loop of one mesh produces the vertices and indices of `Subdivided` |
| SubdivideScene.Subdivision | tools/subdivide.cpp:112-179 | the new mesh is defined for every mesh whose indices are valid and takes the fresh material it is given |
| SubdivideScene.AddMeshes | tools/subdivide.cpp:101-188 | the mesh loop of an object yields one new slot per old slot |
| SubdivideScene.MakeMesh | tools/subdivide.cpp:112-179 | a new mesh holds the subdivided vertices and indices only, with no normals and no texture coordinates |
| SubdivideScene.AddOneMesh | tools/subdivide.cpp:103-187 | one pass of the mesh loop: reuse the mesh map's entry, else subdivide under a fresh material and record it |
| SubdivideScene.AddObjectMeshes | tools/subdivide.cpp:101-188 | the loop over an object's meshes, as `AddMeshes` says |
| SubdivideScene.Subdivide | tools/subdivide.cpp:72-201 | the instance loop with the three identity maps builds exactly `SubdivideSpec` |
| SubdivideFacts.AddMeshShape | tools/subdivide.cpp:103-187 | a mesh pass only changes meshes, materials and the mesh map, which then holds the mesh |
| SubdivideFacts.AddMeshKeepsOk | tools/subdivide.cpp:103-187 | a mesh pass keeps every recorded new mesh the subdivision of its old mesh, under its own fresh material |
| SubdivideFacts.AddMeshesShape | tools/subdivide.cpp:101-188 | after an object's mesh loop every old slot maps to the new mesh recorded for it |
| SubdivideFacts.AddMeshesKeepOk | tools/subdivide.cpp:101-188 | the mesh loop keeps the mesh map correct |
| SubdivideFacts.Origin | tools/subdivide.cpp:83-90 | the slot whose new instance a slot reuses comes no later than it |
| SubdivideFacts.OriginOfFirst | tools/subdivide.cpp:92-198 | a slot that is the first to place its object is its own origin |
| SubdivideFacts.OriginOfRepeat | tools/subdivide.cpp:85-89 | a repeat of an instance first met on the full path reuses that slot's new instance |
| SubdivideFacts.InstanceKeepsMeshesOk | tools/subdivide.cpp:83-199 | an instance pass keeps the mesh map correct |
| SubdivideFacts.ObjectsOkAfterNewObject | tools/subdivide.cpp:189-196 | a new object holds, slot for slot, the new meshes of the old object's meshes, and the object map stays injective |
| SubdivideFacts.InstanceKeepsObjectsOk | tools/subdivide.cpp:83-199 | an instance pass keeps the object map correct |
| SubdivideFacts.ArenaOkAfterNewInstance | tools/subdivide.cpp:94 | a fresh instance of a known object keeps the new graph well formed |
| SubdivideFacts.ArenaOkAfterNewObject | tools/subdivide.cpp:190-194 | a new object and its instance keep the new graph well formed |
| SubdivideFacts.InstanceKeepsArenaOk | tools/subdivide.cpp:83-199 | an instance pass keeps the new graph well formed |
| SubdivideFacts.ObjectsMetGrows | tools/subdivide.cpp:196 | the object map holds only objects of slots met so far |
| SubdivideFacts.RecordedSlot | tools/subdivide.cpp:198 | an instance in the map was recorded at an earlier first slot, with that slot's new instance |
| SubdivideFacts.SlotsOkAfterReuse | tools/subdivide.cpp:85-90 | reusing a recorded instance keeps every slot invariant |
| SubdivideFacts.ReusePlaced | tools/subdivide.cpp:85-90 | a reused slot places the new object of its old object |
| SubdivideFacts.RecordedAtGrows | tools/subdivide.cpp:83-199 | recorded instances stay recorded |
| SubdivideFacts.ReuseInstancesMet | tools/subdivide.cpp:85-90 | reuse keeps the instance map exact |
| SubdivideFacts.ReuseShared | tools/subdivide.cpp:85-90 | reuse shares the new instance exactly with the slots of the same origin |
| SubdivideFacts.FreshShared | tools/subdivide.cpp:92-194 | a fresh new instance is shared with no earlier slot |
| SubdivideFacts.FreshPlaced | tools/subdivide.cpp:92-194 | a fresh new instance places the new object of its old object |
| SubdivideFacts.SlotsOkAfterNewInstance | tools/subdivide.cpp:92-96 | a known object wrapped in a fresh instance, with no map updated, keeps every slot invariant |
| SubdivideFacts.ReuseInstancesMetNotFirst | tools/subdivide.cpp:92-96 | a slot on the known-object path records no instance |
| SubdivideFacts.SlotsOkAfterNewObject | tools/subdivide.cpp:189-198 | the full path records the object and the instance and keeps every slot invariant |
| SubdivideFacts.NewInstancesMet | tools/subdivide.cpp:198 | the first slot of an object records its instance |
| SubdivideFacts.InstanceKeepsSlotsOk | tools/subdivide.cpp:83-199 | an instance pass keeps every slot invariant |
| SubdivideFacts.BuiltUpToOk | tools/subdivide.cpp:83-199 | the instance loop keeps all four maps and the new graph correct after every prefix of the slots |
| SubdivideFacts.BuiltCarries | tools/subdivide.cpp:199-201 | the finished loop's invariants give the new scene every promised property |
| SubdivideFacts.BuiltSceneOk | tools/subdivide.cpp:201 | the new scene is well formed, has no lights or textures, and has one instance per input slot with the default transform |
| SubdivideFacts.BuiltObjects | tools/subdivide.cpp:83-198 | two slots share their new instance iff they share their origin, and their new object iff they shared the old one |
| SubdivideFacts.NewSlot | tools/subdivide.cpp:101-190 | a new object's slot `p` holds the new mesh of the old object's slot `p` |
| SubdivideFacts.BuiltMeshes | tools/subdivide.cpp:101-190 | every new object has as many mesh slots as its old one, each the subdivision of the old mesh with a fresh default material |
| SubdivideFacts.BuiltMeshSharing | tools/subdivide.cpp:103-187 | two new mesh slots hold the same mesh iff the old ones did |
| SubdivideFacts.SubdivideSceneFacts | tools/subdivide.cpp:72-201 | the new scene has `|newInstances| = |scene->instances|` slots with the default transform and no lights; instances, objects and meshes are shared exactly as the identity maps dictate; each new mesh is the subdivision of its old mesh with a fresh default material |

## Reference definitions

These functions define the modelled behaviour. They carry no contract of their own; the members named after each state what they mean.

- `Materials.Params`: the scalar fields of each of the eight variants, in the order of its `write` and `read` (`miniScene/Scene.cpp:102-258`). Stated by `Materials.ParamsRoundTrip` and `Materials.FieldsRoundTrip`.
- `Materials.WriteFields`: a variant's `write`, its fields and then, for Disney, the `getID` of the colour and alpha textures (`miniScene/Scene.cpp:102-235`). Stated by `Materials.WriteMaterial` and `Materials.FieldsRoundTrip`.
- `Materials.ResolveTexture`: one texture ID of a Disney `read`, checked against the loaded table as the asserts do, then looked up (`miniScene/Scene.cpp:246-257`). Stated by `Materials.DisneyRejectsBadTextureId`.
- `Materials.ReadFields`: a variant's `read`, the same fields in the same order, then Disney's colour ID and alpha ID resolved one after the other (`miniScene/Scene.cpp:111-258`). Stated by `Materials.ReadMaterial`, `Materials.FieldsRoundTrip` and `LoadChecks.ReadFieldsShape`.
- `Format.EncodeScene`: the whole file `save` writes, its sections in file order, and the first failure in write order (`miniScene/Scene.cpp:393-496`). Stated by `Store.Save`, `SaveChecks.SaveSucceedsIff`, `SaveChecks.SaveOutcome` and `SaveLoad.SceneLayout`.
- `Format.Decode`: `load` on the content of an opened file, from the leading magic to the trailing one (`miniScene/Scene.cpp:508-652`). Stated by `Store.Load`, `LoadChecks.LeadingMagicDecides`, `LoadChecks.LoadedScenesAreWellFormed` and `SaveLoad.SaveLoadRoundTrip`.
- `Format.CheckEnd`: the trailing-magic check (`miniScene/Scene.cpp:645-650`). Stated by `SaveLoad.TruncatedSaveFails`, `SaveLoad.CorruptEndFails` and `SaveLoad.AnyAcceptedTrailer`.
- `Format.DecodeMaterial`: one pass of the material loop, with no tag read in generation 11 and the tag then taken as Disney (`miniScene/Scene.cpp:562-572`). Stated by `Store.ReadOneMaterial`, `LoadChecks.MaterialBuilds` and `RoundTrip.MaterialRoundTrip`.
- `SubdivideMesh.Intern`: the lookup-or-insert on `vertexMap`, where a new key gets `vertices.size()` from just before the push (`tools/subdivide.cpp:136-145`, `151-160`). Stated by `SubdivideMesh.InternShape` and `SubdivideMesh.InternKeepsWf`.
- `SubdivideMesh.Subtriangles`: the four triangles `(i_k, j_k, j_(k+2)%3)` for k = 0..2 and `(j_0, j_1, j_2)` (`tools/subdivide.cpp:163-175`). Stated by `SubdivideMesh.SplitTriangleShape` and `SubdivideMesh.AddSubtriangles`.
- `SubdivideMesh.SplitTriangle`: one pass of the triangle loop, midpoints first, then corners, then the four triangles (`tools/subdivide.cpp:117-176`). Stated by `SubdivideMesh.SplitTriangleShape` and `SubdivideMesh.SubdivideTriangle`.
- `SubdivideScene.NewMesh`: the new mesh, holding only the subdivided vertices and indices and a fresh material (`tools/subdivide.cpp:112`, `178-179`). Stated by `SubdivideScene.MakeMesh` and `SubdivideFacts.BuiltMeshes`.
- `SubdivideScene.AddMesh`: one pass of the mesh loop, reusing the mesh map's entry or subdividing and recording it (`tools/subdivide.cpp:101-188`). Stated by `SubdivideScene.AddOneMesh`, `SubdivideFacts.AddMeshShape` and `SubdivideFacts.AddMeshKeepsOk`.
- `SubdivideScene.AddInstance`: one pass of the instance loop, with its three paths: a known instance, a known object in a fresh instance, and the full path that records the object and the instance (`tools/subdivide.cpp:83-107`, `186-198`). Stated by `SubdivideScene.Subdivide`, `SubdivideFacts.Origin` and `SubdivideFacts.SubdivideSceneFacts`.

## Left out

- Byte layout: `io::writeElement`/`readVector` (`IO.h`) are not part of this model. The stream is a sequence of tokens, and a field's raw bytes are an abstract `Element`. A token of the wrong kind fails with `Malformed`; the binary stream would reinterpret the bytes instead.
- Field types: `Scene.h` is not part of this model, so every material, texture, light and mesh field is an abstract `Element`. Floats, the `vec3f` vertex type and the transform are not interpreted.
- Registries: `SerializedScene` (`Serialized.h`) is not part of this model. It is a parameter with a contract: duplicate-free lists, an ID map consistent with the list positions (`Serialized.Consistent`), and lists that reach every node the scene uses (`Serialized.Complete`). How it traverses the scene is not modelled.
- Widths: the `size_t`/`int` widths of counts, flags and IDs are unbounded integers. A count above `2^31` in the `int` loop counters and the `(int)numMeshes` cast are not modelled. In `miniSubdivide`, the vertex indices are `int32_t`: the values of `vertexMap` (`tools/subdivide.cpp:110`), the arrays `i[3]` and `j[3]` (`tools/subdivide.cpp:119-120`), and the narrowing of `vertices.size()` into them (`tools/subdivide.cpp:142`, `157`). The model uses unbounded integers, so `SubdivideMesh.SubdivisionFacts`' promise that every index is in range holds for the source only while a new mesh has fewer than `2^31` vertices.
- asserts: the `assert`s in `save` and `load` (material IDs, texture IDs, the environment light's texture) are modelled as error results, as in a debug build. In a release build they are undefined behaviour, which is not modelled.
- Null references: `Mesh.material` and `Instance.obj` are handles that cannot be null. The source saves `getID` of whatever pointer is there (`miniScene/Scene.cpp:469`, `484`), so a null object would be written as -1 and a null material would fail the assert at line 470. A mesh with a null material and an instance with a null object are not modelled.
- Object IDs: the unchecked object ID at `miniScene/Scene.cpp:637` is an error result (`ObjectIdOutOfRange`) instead of undefined behaviour.
- File handling: opening the file and the final stream health check are modelled only as the booleans `opens` and `good` in `save`, and as an `Option` file in `load`. Exceptions are error results. When `save` throws after the file is open, the source has already written a prefix of the file (the writes start at `miniScene/Scene.cpp:393`; the throws come from `materialTagOf` at line 75, reached from line 436, and from the asserts at lines 420 and 470). The model returns the error with no output and does not model that partial file.
- Trailing data: tokens after the trailing magic are not read, as in the source.
- Debug output: `PRINT` and `toString` debug output in `materialTagOf` and `save`, and all console output of `miniSubdivide`, are left out.
- Dead code: the `#else` branches of `save` and `load` (`miniScene/Scene.cpp:440-451`, `573-592`) are dead. The generation-11 layout they show is the Disney field layout. It is written by `Format.EncodeMaterial` with version 11 and read by the generation-11 path of `Format.DecodeMaterial`.
- Bounds: `transformedBoxBounds` and the `getBounds` methods (floats, parallel reduction, mutex) are not part of this model.
- CLI: argument parsing and `usage` in `miniSubdivide` (`tools/subdivide.cpp:24-62`) are left out. apps/miniReplicate.cpp is not part of this model.
- Midpoint arithmetic: the float midpoint `(v[i1] + v[i2]) / 2.0f` is the uninterpreted parameter `mid`.
- Defaults: `Material::create()` is the parameter `material`, and the transform that `Instance::create(object)` gives is the parameter `xfm`, because `Scene.h` is not part of this model. `miniSubdivide`'s own load and save are the `Store` methods and are not repeated inside `SubdivideScene.Subdivide`.
- SubdivideScene.Subdivide: it assumes the shape the source dereferences, namely no null instance slot, no null mesh slot and every corner index inside the vertex list (`SubdivideScene.Subdividable`). The source has undefined behaviour otherwise.
- Identity maps: `std::map` keyed by `shared_ptr` is modelled as a map keyed by arena handles. The map iteration order is not observable in the source, so none is modelled.
- Instance map: the instance map is recorded only on the full path (`tools/subdivide.cpp:198`), not when an object is reused. A repeated instance whose object was first met through another instance therefore gets a fresh new instance each time. This is modelled as written, through `SubdivideFacts.Origin`.
