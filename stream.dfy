/** The binary stream of a `.mini` file, one token per `io::writeElement`
    or `io::writeVector` call. The byte layout of those calls is host
    dependent and is not modelled: a token records what was written and of
    which kind. */
module Stream {
  import opened Wrappers

  /** The raw content of one fixed-layout element of the source (a float, a
      vec3f, a vec2i, an enum, an affine3f, a light record, a texel). The
      model never looks inside it. */
  datatype Element = Element(raw: seq<bv8>)

  /** One `vec3i` of a mesh's index buffer: the three corners of a triangle. */
  datatype Tri = Tri(a: int, b: int, c: int) {
    /** `index[k]` */
    function At(k: nat): int
      requires k < 3
    {
      if k == 0 then a else if k == 1 then b else c
    }
  }

  datatype Token =
    | Word(w: nat)            // a size_t sentinel: the file magic
    | Count(n: nat)           // a size_t element count
    | Int(i: int)             // an int: validity flag, material tag or ID
    | Field(e: Element)       // one writeElement of a fixed-layout value
    | Blob(es: seq<Element>)  // one writeVector of fixed-layout values
    | Tris(ts: seq<Tri>)      // one writeVector of vec3i triangle indices

  /** The failures of `Scene::save` and `Scene::load`: the exceptions they
      throw, the `assert`s they make, and the reader running dry. */
  datatype Error =
    | CannotOpen              // the file could not be opened
    | WriteFailed             // the output stream was bad after the last write
    | Truncated               // a read found no token left
    | Malformed               // a read found a token of another kind
    | WrongMagic              // the leading word is no accepted magic
    | CorruptEnd              // the trailing word is no accepted magic
    | UnsupportedMaterial     // materialTagOf: not one of the eight variants
    | UnsupportedTag(tag: int)// createMaterialFromTag: no such variant
    | NullEnvMapTexture       // save: assert(tex) on the environment light
    | UnregisteredMaterial    // save: assert(matID >= 0)
    | TextureIdOutOfRange     // DisneyMaterial::read: texture ID asserts
    | MaterialIdOutOfRange    // load: material ID asserts
    | ObjectIdOutOfRange      // load: the unchecked objects[ID] index

  /** A value read from the front of a token sequence and what is left. */
  datatype Parsed<+T> = Parsed(value: T, rest: seq<Token>)

  function ParseWord(ts: seq<Token>): Result<Parsed<nat>, Error> {
    if ts == [] then Err(Truncated)
    else if ts[0].Word? then Ok(Parsed(ts[0].w, ts[1..]))
    else Err(Malformed)
  }

  function ParseCount(ts: seq<Token>): Result<Parsed<nat>, Error> {
    if ts == [] then Err(Truncated)
    else if ts[0].Count? then Ok(Parsed(ts[0].n, ts[1..]))
    else Err(Malformed)
  }

  function ParseInt(ts: seq<Token>): Result<Parsed<int>, Error> {
    if ts == [] then Err(Truncated)
    else if ts[0].Int? then Ok(Parsed(ts[0].i, ts[1..]))
    else Err(Malformed)
  }

  function ParseField(ts: seq<Token>): Result<Parsed<Element>, Error> {
    if ts == [] then Err(Truncated)
    else if ts[0].Field? then Ok(Parsed(ts[0].e, ts[1..]))
    else Err(Malformed)
  }

  function ParseBlob(ts: seq<Token>): Result<Parsed<seq<Element>>, Error> {
    if ts == [] then Err(Truncated)
    else if ts[0].Blob? then Ok(Parsed(ts[0].es, ts[1..]))
    else Err(Malformed)
  }

  function ParseTris(ts: seq<Token>): Result<Parsed<seq<Tri>>, Error> {
    if ts == [] then Err(Truncated)
    else if ts[0].Tris? then Ok(Parsed(ts[0].ts, ts[1..]))
    else Err(Malformed)
  }

  /** Reading the first token back gives what was written, for every kind. */
  lemma ReadsWhatWasWritten(t: Token, rest: seq<Token>)
    ensures t.Word? ==> ParseWord([t] + rest) == Ok(Parsed(t.w, rest))
    ensures t.Count? ==> ParseCount([t] + rest) == Ok(Parsed(t.n, rest))
    ensures t.Int? ==> ParseInt([t] + rest) == Ok(Parsed(t.i, rest))
    ensures t.Field? ==> ParseField([t] + rest) == Ok(Parsed(t.e, rest))
    ensures t.Blob? ==> ParseBlob([t] + rest) == Ok(Parsed(t.es, rest))
    ensures t.Tris? ==> ParseTris([t] + rest) == Ok(Parsed(t.ts, rest))
  {
    assert ([t] + rest)[1..] == rest;
  }

  /** The output stream: an append-only buffer of tokens. */
  class Writer {
    var tokens: seq<Token>

    constructor ()
      ensures tokens == []
    {
      tokens := [];
    }

    method Write(t: Token)
      modifies this
      ensures tokens == old(tokens) + [t]
    {
      tokens := tokens + [t];
    }
  }

  /** The input stream: a fixed token sequence and a cursor into it. Every
      read either fails or consumes exactly one token. */
  class Reader {
    const toks: seq<Token>
    var pos: nat

    ghost predicate Valid()
      reads this
    {
      pos <= |toks|
    }

    /** What is still to be read. */
    function Rest(): seq<Token>
      reads this
      requires Valid()
    {
      toks[pos..]
    }

    constructor (toks: seq<Token>)
      ensures Valid() && this.toks == toks && Rest() == toks
    {
      this.toks := toks;
      pos := 0;
    }

    method ReadWord() returns (r: Result<nat, Error>)
      requires Valid()
      modifies this
      ensures Valid()
      ensures r.Ok? ==> ParseWord(old(Rest())) == Ok(Parsed(r.value, Rest()))
      ensures r.Err? ==> ParseWord(old(Rest())) == Err(r.error)
    {
      if pos == |toks| {
        return Err(Truncated);
      }
      if !toks[pos].Word? {
        return Err(Malformed);
      }
      r := Ok(toks[pos].w);
      pos := pos + 1;
    }

    method ReadCount() returns (r: Result<nat, Error>)
      requires Valid()
      modifies this
      ensures Valid()
      ensures r.Ok? ==> ParseCount(old(Rest())) == Ok(Parsed(r.value, Rest()))
      ensures r.Err? ==> ParseCount(old(Rest())) == Err(r.error)
    {
      if pos == |toks| {
        return Err(Truncated);
      }
      if !toks[pos].Count? {
        return Err(Malformed);
      }
      r := Ok(toks[pos].n);
      pos := pos + 1;
    }

    method ReadInt() returns (r: Result<int, Error>)
      requires Valid()
      modifies this
      ensures Valid()
      ensures r.Ok? ==> ParseInt(old(Rest())) == Ok(Parsed(r.value, Rest()))
      ensures r.Err? ==> ParseInt(old(Rest())) == Err(r.error)
    {
      if pos == |toks| {
        return Err(Truncated);
      }
      if !toks[pos].Int? {
        return Err(Malformed);
      }
      r := Ok(toks[pos].i);
      pos := pos + 1;
    }

    method ReadField() returns (r: Result<Element, Error>)
      requires Valid()
      modifies this
      ensures Valid()
      ensures r.Ok? ==> ParseField(old(Rest())) == Ok(Parsed(r.value, Rest()))
      ensures r.Err? ==> ParseField(old(Rest())) == Err(r.error)
    {
      if pos == |toks| {
        return Err(Truncated);
      }
      if !toks[pos].Field? {
        return Err(Malformed);
      }
      r := Ok(toks[pos].e);
      pos := pos + 1;
    }

    method ReadBlob() returns (r: Result<seq<Element>, Error>)
      requires Valid()
      modifies this
      ensures Valid()
      ensures r.Ok? ==> ParseBlob(old(Rest())) == Ok(Parsed(r.value, Rest()))
      ensures r.Err? ==> ParseBlob(old(Rest())) == Err(r.error)
    {
      if pos == |toks| {
        return Err(Truncated);
      }
      if !toks[pos].Blob? {
        return Err(Malformed);
      }
      r := Ok(toks[pos].es);
      pos := pos + 1;
    }

    method ReadTris() returns (r: Result<seq<Tri>, Error>)
      requires Valid()
      modifies this
      ensures Valid()
      ensures r.Ok? ==> ParseTris(old(Rest())) == Ok(Parsed(r.value, Rest()))
      ensures r.Err? ==> ParseTris(old(Rest())) == Err(r.error)
    {
      if pos == |toks| {
        return Err(Truncated);
      }
      if !toks[pos].Tris? {
        return Err(Malformed);
      }
      r := Ok(toks[pos].ts);
      pos := pos + 1;
    }
  }
}
