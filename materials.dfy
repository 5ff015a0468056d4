/** The material variants of the `.mini` format: the tag enumeration, the
    two directions of tag dispatch, the texture ID lookup, and each variant's
    own field layout, as pure functions and as the stream `write`/`read`
    methods that follow them. */
module Materials {
  import opened Wrappers
  import opened Stream
  import opened SceneGraph

  // MaterialTag
  const INVALID := 0
  const DISNEY := 1
  const MATTE := 2
  const PLASTIC := 3
  const METAL := 4
  const VELVET := 5
  const METALLICPAINT := 6
  const THINGLASS := 7
  const DIELECTRIC := 8

  /** Both materials are of the same variant. */
  predicate SameVariant(a: Material, b: Material) {
    || (a.Disney? && b.Disney?)
    || (a.Matte? && b.Matte?)
    || (a.Plastic? && b.Plastic?)
    || (a.Metal? && b.Metal?)
    || (a.Velvet? && b.Velvet?)
    || (a.MetallicPaint? && b.MetallicPaint?)
    || (a.ThinGlass? && b.ThinGlass?)
    || (a.Dielectric? && b.Dielectric?)
    || (a.Unsupported? && b.Unsupported?)
  }

  /** The tag `Scene::save` writes before a material; any material outside
      the eight variants is refused. */
  function MaterialTagOf(m: Material): (r: Result<int, Error>)
    ensures r.Err? <==> m.Unsupported?
    ensures r.Err? ==> r.error == UnsupportedMaterial
    ensures r.Ok? ==> DISNEY <= r.value <= DIELECTRIC
  {
    match m
    case Disney(_, _, _, _, _, _, _, _) => Ok(DISNEY)
    case Matte(_) => Ok(MATTE)
    case Metal(_, _, _) => Ok(METAL)
    case Velvet(_, _, _, _) => Ok(VELVET)
    case Plastic(_, _, _, _) => Ok(PLASTIC)
    case MetallicPaint(_, _, _, _) => Ok(METALLICPAINT)
    case Dielectric(_, _, _) => Ok(DIELECTRIC)
    case ThinGlass(_, _, _) => Ok(THINGLASS)
    case Unsupported => Err(UnsupportedMaterial)
  }

  /** Stands for the default parameter values of a freshly created material;
      every one of them is overwritten by the variant's `read`. */
  const Unset := Element([])

  /** The factory `Scene::load` dispatches a tag to: a default material of
      that variant, or a failure for `INVALID` and every unknown tag. */
  function CreateMaterialFromTag(tag: int): (r: Result<Material, Error>)
    ensures r.Ok? <==> DISNEY <= tag <= DIELECTRIC
    ensures r.Err? ==> r.error == UnsupportedTag(tag)
    ensures r.Ok? ==> MaterialTagOf(r.value) == Ok(tag)
  {
    if tag == DISNEY then Ok(Disney(Unset, Unset, Unset, Unset, Unset, Unset, None, None))
    else if tag == METAL then Ok(Metal(Unset, Unset, Unset))
    else if tag == VELVET then Ok(Velvet(Unset, Unset, Unset, Unset))
    else if tag == PLASTIC then Ok(Plastic(Unset, Unset, Unset, Unset))
    else if tag == MATTE then Ok(Matte(Unset))
    else if tag == DIELECTRIC then Ok(Dielectric(Unset, Unset, Unset))
    else if tag == THINGLASS then Ok(ThinGlass(Unset, Unset, Unset))
    else if tag == METALLICPAINT then Ok(MetallicPaint(Unset, Unset, Unset, Unset))
    else Err(UnsupportedTag(tag))
  }

  /** Creating a material from the tag of `m` gives a material of the
      variant of `m`, for each of the eight variants. */
  lemma TagRoundTrip(m: Material)
    requires !m.Unsupported?
    ensures MaterialTagOf(m).Ok?
    ensures CreateMaterialFromTag(MaterialTagOf(m).value).Ok?
    ensures SameVariant(CreateMaterialFromTag(MaterialTagOf(m).value).value, m)
  {
  }

  /** No two variants share a tag. */
  lemma TagsDistinguishVariants(a: Material, b: Material)
    requires MaterialTagOf(a).Ok? && MaterialTagOf(b).Ok?
    ensures MaterialTagOf(a) == MaterialTagOf(b) <==> SameVariant(a, b)
  {
  }

  /** The integer ID of a texture in the registry built for saving, or -1
      when the registry has no entry for it. */
  function GetID<K>(key: K, registry: map<K, int>): int
  {
    if key in registry then registry[key] else -1
  }

  /** The parameters of `m` other than its texture references, in the
      order its variant's `write` emits them. */
  function Params(m: Material): seq<Element>
    requires !m.Unsupported?
  {
    match m
    case Plastic(ks, eta, pigmentColor, roughness) => [ks, eta, pigmentColor, roughness]
    case Matte(reflectance) => [reflectance]
    case MetallicPaint(glitterColor, glitterSpread, shadeColor, eta) => [glitterColor, glitterSpread, shadeColor, eta]
    case ThinGlass(eta, thickness, transmission) => [eta, thickness, transmission]
    case Dielectric(etaInside, etaOutside, transmission) => [etaInside, etaOutside, transmission]
    case Metal(eta, k, roughness) => [eta, k, roughness]
    case Velvet(reflectance, horizonColor, horizonFallOff, backScattering) =>
      [reflectance, horizonColor, horizonFallOff, backScattering]
    case Disney(emission, baseColor, metallic, roughness, transmission, ior, _, _) =>
      [emission, baseColor, metallic, roughness, transmission, ior]
  }

  /** A material of the variant of `proto` with the parameters `ps` and,
      for a Disney material, the texture references `color` and `alpha`. */
  function FromParams(proto: Material, ps: seq<Element>, color: Option<nat>, alpha: Option<nat>): (m: Material)
    requires !proto.Unsupported? && |ps| == |Params(proto)|
    ensures SameVariant(proto, m) && Params(m) == ps
    ensures m.Disney? ==> m.colorTexture == color && m.alphaTexture == alpha
  {
    match proto
    case Plastic(_, _, _, _) => Plastic(ps[0], ps[1], ps[2], ps[3])
    case Matte(_) => Matte(ps[0])
    case MetallicPaint(_, _, _, _) => MetallicPaint(ps[0], ps[1], ps[2], ps[3])
    case ThinGlass(_, _, _) => ThinGlass(ps[0], ps[1], ps[2])
    case Dielectric(_, _, _) => Dielectric(ps[0], ps[1], ps[2])
    case Metal(_, _, _) => Metal(ps[0], ps[1], ps[2])
    case Velvet(_, _, _, _) => Velvet(ps[0], ps[1], ps[2], ps[3])
    case Disney(_, _, _, _, _, _, _, _) => Disney(ps[0], ps[1], ps[2], ps[3], ps[4], ps[5], color, alpha)
  }

  /** A material is determined by its variant, its parameters and its
      texture references. */
  lemma FromOwnParams(proto: Material, m: Material)
    requires !m.Unsupported? && SameVariant(proto, m)
    ensures |Params(proto)| == |Params(m)|
    ensures m.Disney? ==> FromParams(proto, Params(m), m.colorTexture, m.alphaTexture) == m
    ensures !m.Disney? ==> FromParams(proto, Params(m), None, None) == m
  {
  }

  /** One field token per parameter, in order. */
  function Fields(ps: seq<Element>): (ts: seq<Token>)
    ensures |ts| == |ps| && forall k :: 0 <= k < |ps| ==> ts[k] == Field(ps[k])
  {
    seq(|ps|, k requires 0 <= k < |ps| => Field(ps[k]))
  }

  /** The tokens a variant's `write` emits after the tag: its parameters,
      then for a Disney material the IDs of its two textures. */
  function WriteFields(m: Material, textureIDs: map<Option<nat>, int>): seq<Token>
    requires !m.Unsupported?
  {
    if m.Disney? then Fields(Params(m)) + [Int(GetID(m.colorTexture, textureIDs)), Int(GetID(m.alphaTexture, textureIDs))]
    else Fields(Params(m))
  }

  /** The parameters `acc` read so far, followed by `n` more parameter
      fields. */
  function ParseParams(ts: seq<Token>, n: nat, acc: seq<Element>): (r: Result<Parsed<seq<Element>>, Error>)
    ensures r.Ok? ==> |r.value.value| == |acc| + n
    decreases n
  {
    if n == 0 then Ok(Parsed(acc, ts))
    else
      var first :- ParseField(ts);
      ParseParams(first.rest, n - 1, acc + [first.value])
  }

  /** Reading back as many parameters as were written gives them back and
      consumes exactly their fields. */
  lemma {:induction false} ParamsRoundTrip(ps: seq<Element>, rest: seq<Token>, acc: seq<Element>)
    ensures ParseParams(Fields(ps) + rest, |ps|, acc) == Ok(Parsed(acc + ps, rest))
    decreases |ps|
  {
    if ps != [] {
      var ts := Fields(ps) + rest;
      assert ts[0] == Field(ps[0]);
      assert ts[1..] == Fields(ps[1..]) + rest;
      assert ParseField(ts) == Ok(Parsed(ps[0], Fields(ps[1..]) + rest));
      ParamsRoundTrip(ps[1..], rest, acc + [ps[0]]);
      assert acc + [ps[0]] + ps[1..] == acc + ps;
    } else {
      assert Fields(ps) + rest == rest && acc + ps == acc;
    }
  }

  /** A texture ID read back from the stream, resolved against the textures
      loaded so far; outside `[0, |textures|)` the source's asserts fail. */
  function ResolveTexture(id: int, textures: seq<Option<nat>>): Result<Option<nat>, Error> {
    if 0 <= id < |textures| then Ok(textures[id]) else Err(TextureIdOutOfRange)
  }

  /** A variant's `read`: fills every parameter of the variant of `proto`
      from the stream, in the order of its `write`; a Disney material then
      reads the IDs of its textures and takes them from the loaded table. */
  function ReadFields(proto: Material, ts: seq<Token>, textures: seq<Option<nat>>)
    : Result<Parsed<Material>, Error>
    requires !proto.Unsupported?
  {
    var p :- ParseParams(ts, |Params(proto)|, []);
    if proto.Disney? then
      var colorID :- ParseInt(p.rest);
      var color :- ResolveTexture(colorID.value, textures);
      var alphaID :- ParseInt(colorID.rest);
      var alpha :- ResolveTexture(alphaID.value, textures);
      Ok(Parsed(FromParams(proto, p.value, color, alpha), alphaID.rest))
    else Ok(Parsed(FromParams(proto, p.value, None, None), p.rest))
  }

  /** The texture IDs a Disney material is saved with lie inside a table
      of `n` loaded textures. */
  predicate TexturesInTable(m: Material, textureIDs: map<Option<nat>, int>, n: nat) {
    m.Disney? ==> 0 <= GetID(m.colorTexture, textureIDs) < n && 0 <= GetID(m.alphaTexture, textureIDs) < n
  }

  /** `m` as a load gives it back: every parameter kept, and a Disney
      material's texture references replaced by the loaded textures their
      saved IDs name. */
  function Relocated(m: Material, textureIDs: map<Option<nat>, int>, textures: seq<Option<nat>>): Material
    requires TexturesInTable(m, textureIDs, |textures|)
  {
    if m.Disney? then
      m.(colorTexture := textures[GetID(m.colorTexture, textureIDs)],
         alphaTexture := textures[GetID(m.alphaTexture, textureIDs)])
    else m
  }

  /** Each variant's `read` consumes exactly the tokens its `write` produced
      and restores every parameter; texture IDs inside `[0, |textures|)`
      resolve to the textures loaded under those IDs. */
  lemma FieldsRoundTrip(m: Material, proto: Material, textureIDs: map<Option<nat>, int>,
                        textures: seq<Option<nat>>, rest: seq<Token>)
    requires !m.Unsupported? && SameVariant(proto, m)
    requires TexturesInTable(m, textureIDs, |textures|)
    ensures ReadFields(proto, WriteFields(m, textureIDs) + rest, textures)
            == Ok(Parsed(Relocated(m, textureIDs, textures), rest))
  {
    FromOwnParams(proto, m);
    if m.Disney? {
      var ids := [Int(GetID(m.colorTexture, textureIDs)), Int(GetID(m.alphaTexture, textureIDs))];
      assert WriteFields(m, textureIDs) + rest == Fields(Params(m)) + (ids + rest);
      ParamsRoundTrip(Params(m), ids + rest, []);
      FromOwnParams(proto, Relocated(m, textureIDs, textures));
    } else {
      ParamsRoundTrip(Params(m), rest, []);
    }
  }

  /** A Disney texture ID outside the loaded texture table fails the load. */
  lemma DisneyRejectsBadTextureId(m: Material, proto: Material, textureIDs: map<Option<nat>, int>,
                                  textures: seq<Option<nat>>, rest: seq<Token>)
    requires m.Disney? && proto.Disney?
    requires !(0 <= GetID(m.colorTexture, textureIDs) < |textures|)
          || !(0 <= GetID(m.alphaTexture, textureIDs) < |textures|)
    ensures ReadFields(proto, WriteFields(m, textureIDs) + rest, textures) == Err(TextureIdOutOfRange)
  {
    var ids := [Int(GetID(m.colorTexture, textureIDs)), Int(GetID(m.alphaTexture, textureIDs))];
    assert WriteFields(m, textureIDs) + rest == Fields(Params(m)) + (ids + rest);
    ParamsRoundTrip(Params(m), ids + rest, []);
    assert (ids + rest)[1..] == [ids[1]] + rest;
  }

  /** Writes the fields of `m` after its tag. */
  method WriteMaterial(out: Writer, m: Material, textureIDs: map<Option<nat>, int>)
    requires !m.Unsupported?
    modifies out
    ensures out.tokens == old(out.tokens) + WriteFields(m, textureIDs)
  {
    var ps := Params(m);
    for k := 0 to |ps|
      invariant out.tokens == old(out.tokens) + Fields(ps[..k])
    {
      out.Write(Field(ps[k]));
      assert Fields(ps[..k + 1]) == Fields(ps[..k]) + [Field(ps[k])];
    }
    assert ps[..|ps|] == ps;
    if m.Disney? {
      out.Write(Int(GetID(m.colorTexture, textureIDs)));
      out.Write(Int(GetID(m.alphaTexture, textureIDs)));
    }
  }

  /** Reads `n` parameter fields, as `ParseParams` says. */
  method ReadParams(input: Reader, n: nat) returns (r: Result<seq<Element>, Error>)
    requires input.Valid()
    modifies input
    ensures input.Valid()
    ensures r.Ok? ==> ParseParams(old(input.Rest()), n, []) == Ok(Parsed(r.value, input.Rest()))
    ensures r.Err? ==> ParseParams(old(input.Rest()), n, []) == Err(r.error)
  {
    var ps := [];
    var left := n;
    while left > 0
      invariant input.Valid()
      invariant ParseParams(old(input.Rest()), n, []) == ParseParams(input.Rest(), left, ps)
    {
      var p :- input.ReadField();
      ps := ps + [p];
      left := left - 1;
    }
    return Ok(ps);
  }

  /** Reads the fields of the variant of `proto`, as `ReadFields` says: its
      parameters, then for a Disney material the two texture IDs, each
      checked against the loaded table. */
  method ReadMaterial(input: Reader, proto: Material, textures: seq<Option<nat>>)
    returns (r: Result<Material, Error>)
    requires input.Valid() && !proto.Unsupported?
    modifies input
    ensures input.Valid()
    ensures r.Ok? ==> ReadFields(proto, old(input.Rest()), textures) == Ok(Parsed(r.value, input.Rest()))
    ensures r.Err? ==> ReadFields(proto, old(input.Rest()), textures) == Err(r.error)
  {
    var ps :- ReadParams(input, |Params(proto)|);
    if !proto.Disney? {
      return Ok(FromParams(proto, ps, None, None));
    }
    var colorID :- input.ReadInt();
    if !(0 <= colorID < |textures|) {
      return Err(TextureIdOutOfRange);
    }
    var alphaID :- input.ReadInt();
    if !(0 <= alphaID < |textures|) {
      return Err(TextureIdOutOfRange);
    }
    r := Ok(FromParams(proto, ps, textures[colorID], textures[alphaID]));
  }
}
