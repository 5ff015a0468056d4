/** The string keys of miniSubdivide's per-mesh vertex map. An original
    vertex is keyed by its index written in decimal (`std::to_string`), an
    edge midpoint by the two corner indices in increasing order with a comma
    between them (`midpointIndexToString`). The lemmas here show that these
    keys name vertices faithfully: two keys are equal exactly when they name
    the same original vertex or the same unordered edge. */
module VertexKeys {

  predicate IsDigit(c: char) {
    '0' <= c <= '9'
  }

  function DigitChar(d: nat): (c: char)
    requires d < 10
    ensures IsDigit(c) && c as int - '0' as int == d
  {
    ('0' as int + d) as char
  }

  predicate AllDigits(s: string) {
    forall k :: 0 <= k < |s| ==> IsDigit(s[k])
  }

  /** The decimal digits of `n`, most significant first. */
  function NatToString(n: nat): (s: string)
    ensures |s| > 0 && AllDigits(s)
    decreases n
  {
    if n < 10 then [DigitChar(n)] else NatToString(n / 10) + [DigitChar(n % 10)]
  }

  /** The number a string of decimal digits denotes. */
  function DigitsValue(s: string): nat
    requires AllDigits(s)
    decreases |s|
  {
    if s == [] then 0
    else DigitsValue(s[..|s| - 1]) * 10 + (s[|s| - 1] as int - '0' as int)
  }

  lemma {:induction false} DigitsValueOfNatToString(n: nat)
    ensures DigitsValue(NatToString(n)) == n
    decreases n
  {
    var s := NatToString(n);
    if n >= 10 {
      DigitsValueOfNatToString(n / 10);
      assert s[..|s| - 1] == NatToString(n / 10);
    }
  }

  /** Decimal notation names each natural number by one string. */
  lemma NatToStringInjective(a: nat, b: nat)
    ensures NatToString(a) == NatToString(b) <==> a == b
  {
    if NatToString(a) == NatToString(b) {
      DigitsValueOfNatToString(a);
      DigitsValueOfNatToString(b);
    }
  }

  /** `std::to_string` of an integer: a minus sign before the digits of a
      negative one. */
  function IntToString(n: int): (s: string)
    ensures |s| > 0 && ',' !in s
    ensures n >= 0 ==> AllDigits(s)
    ensures n < 0 ==> s[0] == '-' && AllDigits(s[1..])
  {
    if n < 0 then "-" + NatToString(-n) else NatToString(n)
  }

  lemma IntToStringInjective(a: int, b: int)
    ensures IntToString(a) == IntToString(b) <==> a == b
  {
    if IntToString(a) == IntToString(b) {
      if a < 0 && b < 0 {
        assert IntToString(a)[1..] == NatToString(-a);
        assert IntToString(b)[1..] == NatToString(-b);
        NatToStringInjective(-a, -b);
      } else if a >= 0 && b >= 0 {
        NatToStringInjective(a, b);
      }
    }
  }

  /** The key of the edge between vertex indices `i1` and `i2`. */
  function MidpointIndexToString(i1: int, i2: int): (s: string)
    ensures ',' in s
  {
    if i1 < i2 then IntToString(i1) + "," + IntToString(i2)
    else IntToString(i2) + "," + IntToString(i1)
  }

  /** Two comma-free strings joined by a comma can be split back apart. */
  lemma SplitAtComma(x: string, y: string, x': string, y': string)
    requires ',' !in x && ',' !in y && ',' !in x' && ',' !in y'
    requires x + "," + y == x' + "," + y'
    ensures x == x' && y == y'
  {
    var s := x + "," + y;
    assert s[|x|] == ',' && s[|x'|] == ',';
    assert x == s[..|x|] == x';
    assert y == s[|x| + 1..] == y';
  }

  /** The edge key does not depend on the order of the two corners, and
      otherwise it names the edge: equal keys mean the same unordered pair. */
  lemma MidpointKeyIff(a: int, b: int, c: int, d: int)
    ensures MidpointIndexToString(a, b) == MidpointIndexToString(c, d)
            <==> (a == c && b == d) || (a == d && b == c)
  {
    var lo1, hi1 := if a < b then a else b, if a < b then b else a;
    var lo2, hi2 := if c < d then c else d, if c < d then d else c;
    if MidpointIndexToString(a, b) == MidpointIndexToString(c, d) {
      SplitAtComma(IntToString(lo1), IntToString(hi1), IntToString(lo2), IntToString(hi2));
      IntToStringInjective(lo1, lo2);
      IntToStringInjective(hi1, hi2);
    }
  }

  /** An original vertex's key never equals an edge's key. */
  lemma OrigKeyIsNotEdgeKey(i: int, a: int, b: int)
    ensures IntToString(i) != MidpointIndexToString(a, b)
  {
  }

  /** What a vertex of the subdivided mesh stands for: a copy of original
      vertex `i`, or the midpoint computed from corners `x` and `y` in the
      order the triangle presented them. */
  datatype VertexKey = Orig(i: int) | Edge(x: int, y: int)

  /** The map key the source builds for a vertex. */
  function KeyString(k: VertexKey): string {
    match k
    case Orig(i) => IntToString(i)
    case Edge(x, y) => MidpointIndexToString(x, y)
  }

  /** Two keys that name the same vertex: the same original index, or the
      same edge in either orientation. */
  predicate SameVertex(k1: VertexKey, k2: VertexKey) {
    match k1
    case Orig(i) => k2.Orig? && k2.i == i
    case Edge(x, y) => k2.Edge? && ((k2.x == x && k2.y == y) || (k2.x == y && k2.y == x))
  }

  /** The string keys tell vertices apart exactly as `SameVertex` does:
      original and edge keys never collide, and each unordered edge and each
      original index has one key. */
  lemma KeyStringIff(k1: VertexKey, k2: VertexKey)
    ensures KeyString(k1) == KeyString(k2) <==> SameVertex(k1, k2)
  {
    match k1 {
      case Orig(i) =>
        match k2 {
          case Orig(j) => IntToStringInjective(i, j);
          case Edge(x, y) => OrigKeyIsNotEdgeKey(i, x, y);
        }
      case Edge(x, y) =>
        match k2 {
          case Orig(j) => OrigKeyIsNotEdgeKey(j, x, y);
          case Edge(x', y') => MidpointKeyIff(x, y, x', y');
        }
    }
  }
}
