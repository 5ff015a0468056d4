/** The midpoint subdivision of one triangle mesh in miniSubdivide: every
    triangle is split into four, through the midpoints of its edges. A
    per-mesh vertex map, keyed by the strings of `VertexKeys`, makes every
    original vertex and every edge midpoint appear once in the new mesh even
    when several triangles share it.

    `Subdivided` is the specification, one triangle at a time;
    `SubdivideTriangles` is the source's loop over triangles with its arrays
    `i[3]` and `j[3]`, proved to compute it. Vertex positions are kept
    abstract (`V`), and the float midpoint `(a + b) / 2` is the parameter
    `mid`. */
module SubdivideMesh {
  import opened Stream
  import opened VertexKeys

  /** The state of one mesh's subdivision: the vertex map, the new vertices
      and triangles, and for each new vertex what it stands for. */
  datatype SubState<K, V> = SubState(vertexMap: map<K, int>, vertices: seq<V>, indices: seq<Tri>,
                                  keys: seq<VertexKey>)

  function Corner(t: Tri, k: nat): int
    requires k < 3
  {
    if k == 0 then t.a else if k == 1 then t.b else t.c
  }

  predicate TriInRange(t: Tri, n: int) {
    0 <= t.a < n && 0 <= t.b < n && 0 <= t.c < n
  }

  /** Every corner of every triangle indexes the vertex list; the source
      indexes `mesh->vertices` with them unchecked. */
  predicate IndicesValid(tris: seq<Tri>, n: int) {
    forall q :: 0 <= q < |tris| ==> TriInRange(tris[q], n)
  }

  predicate KeyValid(key: VertexKey, n: int) {
    match key
    case Orig(i) => 0 <= i < n
    case Edge(x, y) => 0 <= x < n && 0 <= y < n
  }

  /** The position a vertex of the new mesh should have. */
  function Meaning<V>(key: VertexKey, vs: seq<V>, mid: (V, V) -> V): V
    requires KeyValid(key, |vs|)
  {
    match key
    case Orig(i) => vs[i]
    case Edge(x, y) => mid(vs[x], vs[y])
  }

  /** The keys a triangle contributes: its three corners and its three
      edges in the order the source visits them. */
  predicate KeyOfTriangle(key: VertexKey, t: Tri) {
    || key == Orig(t.a) || key == Orig(t.b) || key == Orig(t.c)
    || key == Edge(t.a, t.b) || key == Edge(t.b, t.c) || key == Edge(t.c, t.a)
  }

  /** The vertex for `key`: the one already in the map, or a new one with
      position `v` at the end of the vertex list. */
  function Intern<K(==), V>(st: SubState<K, V>, name: VertexKey -> K, key: VertexKey, v: V)
    : (SubState<K, V>, int)
  {
    var s := name(key);
    if s in st.vertexMap then (st, st.vertexMap[s])
    else (st.(vertexMap := st.vertexMap[s := |st.vertices|], vertices := st.vertices + [v],
              keys := st.keys + [key]),
          |st.vertices|)
  }

  /** The first `k` edge midpoints of triangle `t`, and their vertices. */
  function Midpoints<K(==), V>(st: SubState<K, V>, name: VertexKey -> K, t: Tri, vs: seq<V>, mid: (V, V) -> V,
                               k: nat): (r: (SubState<K, V>, seq<int>))
    requires TriInRange(t, |vs|) && k <= 3
    ensures |r.1| == k
  {
    if k == 0 then (st, [])
    else
      var (s, js) := Midpoints(st, name, t, vs, mid, k - 1);
      var x, y := Corner(t, k - 1), Corner(t, k % 3);
      var (s', j) := Intern(s, name, Edge(x, y), mid(vs[x], vs[y]));
      (s', js + [j])
  }

  /** The first `k` corners of triangle `t`, and their vertices. */
  function Originals<K(==), V>(st: SubState<K, V>, name: VertexKey -> K, t: Tri, vs: seq<V>,
                               k: nat): (r: (SubState<K, V>, seq<int>))
    requires TriInRange(t, |vs|) && k <= 3
    ensures |r.1| == k
  {
    if k == 0 then (st, [])
    else
      var (s, cs) := Originals(st, name, t, vs, k - 1);
      var x := Corner(t, k - 1);
      var (s', i) := Intern(s, name, Orig(x), vs[x]);
      (s', cs + [i])
  }

  /** The four triangles replacing one: a corner triangle at each original
      vertex, and the middle triangle of the three midpoints. */
  function Subtriangles(cs: seq<int>, js: seq<int>): seq<Tri>
    requires |cs| == 3 && |js| == 3
  {
    [Tri(cs[0], js[0], js[2]), Tri(cs[1], js[1], js[0]), Tri(cs[2], js[2], js[1]), Tri(js[0], js[1], js[2])]
  }

  /** One triangle: its midpoints first, then its corners, then its four
      new triangles. */
  function SplitTriangle<K(==), V>(st: SubState<K, V>, name: VertexKey -> K, t: Tri, vs: seq<V>,
                                   mid: (V, V) -> V): SubState<K, V>
    requires TriInRange(t, |vs|)
  {
    var (s1, js) := Midpoints(st, name, t, vs, mid, 3);
    var (s2, cs) := Originals(s1, name, t, vs, 3);
    s2.(indices := s2.indices + Subtriangles(cs, js))
  }

  /** The subdivision of a mesh with vertices `vs` and triangles `tris`. */
  function Subdivided<K(==), V>(name: VertexKey -> K, vs: seq<V>, tris: seq<Tri>, mid: (V, V) -> V): SubState<K, V>
    requires IndicesValid(tris, |vs|)
  {
    if tris == [] then SubState(map[], [], [], [])
    else SplitTriangle(Subdivided(name, vs, tris[..|tris| - 1], mid), name, tris[|tris| - 1], vs, mid)
  }

  // ---------------------------------------------------------------------
  // The invariant of the vertex map
  // ---------------------------------------------------------------------

  /** The vertex map holds one entry per new vertex, each vertex's key names
      its own position and every entry a position of the vertex list, so the
      map is a bijection between keys and positions; each vertex has the
      position its key calls for, and every new triangle indexes the new
      vertex list. */
  ghost predicate Wf<K, V>(st: SubState<K, V>, name: VertexKey -> K, vs: seq<V>, mid: (V, V) -> V) {
    && |st.keys| == |st.vertices|
    && |st.vertexMap| == |st.vertices|
    && (forall p :: 0 <= p < |st.keys| ==>
          KeyValid(st.keys[p], |vs|) && st.vertices[p] == Meaning(st.keys[p], vs, mid))
    && (forall p :: 0 <= p < |st.keys| ==>
          name(st.keys[p]) in st.vertexMap && st.vertexMap[name(st.keys[p])] == p)
    && (forall s :: s in st.vertexMap ==> 0 <= st.vertexMap[s] < |st.keys|)
    && (forall n :: 0 <= n < |st.indices| ==> TriInRange(st.indices[n], |st.vertices|))
  }

  /** `b` continues `a`: the vertices and keys of `a` are kept, and every
      map entry of `a` is kept unchanged. */
  ghost predicate Extends<K, V>(a: SubState<K, V>, b: SubState<K, V>) {
    && |a.vertices| <= |b.vertices| && b.vertices[..|a.vertices|] == a.vertices
    && |a.keys| <= |b.keys| && b.keys[..|a.keys|] == a.keys
    && (forall s :: s in a.vertexMap ==> s in b.vertexMap && b.vertexMap[s] == a.vertexMap[s])
  }

  lemma ExtendsTrans<K, V>(a: SubState<K, V>, b: SubState<K, V>, c: SubState<K, V>)
    requires Extends(a, b) && Extends(b, c)
    ensures Extends(a, c)
  {
    assert c.vertices[..|a.vertices|] == c.vertices[..|b.vertices|][..|a.vertices|];
    assert c.keys[..|a.keys|] == c.keys[..|b.keys|][..|a.keys|];
  }

  /** Looking up or adding one vertex keeps every entry, vertex and key
      there was, adds at most the one key, and leaves the map holding the
      returned vertex for it. */
  lemma InternShape<K, V>(st: SubState<K, V>, name: VertexKey -> K, key: VertexKey, v: V)
    ensures var (r, id) := Intern(st, name, key, v);
            && Extends(st, r) && r.indices == st.indices
            && name(key) in r.vertexMap && r.vertexMap[name(key)] == id
            && (forall p :: |st.keys| <= p < |r.keys| ==> r.keys[p] == key)
  {
    var (r, id) := Intern(st, name, key, v);
    if name(key) !in st.vertexMap {
      assert r.keys[..|st.keys|] == st.keys;
      assert r.vertices[..|st.vertices|] == st.vertices;
    }
  }

  /** Adding a vertex at the position its key calls for keeps the invariant. */
  lemma InternKeepsWf<K, V>(st: SubState<K, V>, name: VertexKey -> K, key: VertexKey, v: V, vs: seq<V>,
                                mid: (V, V) -> V)
    requires Wf(st, name, vs, mid) && KeyValid(key, |vs|) && v == Meaning(key, vs, mid)
    ensures Wf(Intern(st, name, key, v).0, name, vs, mid)
  {
    var s := name(key);
    if s !in st.vertexMap {
      var (r, id) := Intern(st, name, key, v);
      assert |r.vertexMap| == |st.vertexMap| + 1;
      forall p | 0 <= p < |r.keys|
        ensures name(r.keys[p]) in r.vertexMap && r.vertexMap[name(r.keys[p])] == p
      {
        if p < |st.keys| {
          assert r.keys[p] == st.keys[p];
        }
      }
    }
  }

  // ---------------------------------------------------------------------
  // One triangle
  // ---------------------------------------------------------------------

  /** The edge from corner `m` of a triangle to the next one. */
  function EdgeOf(t: Tri, m: nat): VertexKey
    requires m < 3
  {
    Edge(Corner(t, m), Corner(t, (m + 1) % 3))
  }

  /** The midpoint loop adds only edge keys of the triangle, and leaves the
      `m`-th midpoint's vertex in the map under that edge's key. */
  lemma {:induction false} MidpointsShape<K, V>(st: SubState<K, V>, name: VertexKey -> K, t: Tri, vs: seq<V>,
                                                   mid: (V, V) -> V, k: nat)
    requires TriInRange(t, |vs|) && k <= 3
    ensures var (r, js) := Midpoints(st, name, t, vs, mid, k);
            && Extends(st, r) && r.indices == st.indices
            && (forall m :: 0 <= m < k ==> name(EdgeOf(t, m)) in r.vertexMap && r.vertexMap[name(EdgeOf(t, m))] == js[m])
            && (forall p :: |st.keys| <= p < |r.keys| ==> r.keys[p].Edge? && KeyOfTriangle(r.keys[p], t))
    decreases k
  {
    if k > 0 {
      MidpointsShape(st, name, t, vs, mid, k - 1);
      var (s, js) := Midpoints(st, name, t, vs, mid, k - 1);
      assert EdgeOf(t, k - 1) == Edge(Corner(t, k - 1), Corner(t, k % 3));
      var x, y := Corner(t, k - 1), Corner(t, k % 3);
      InternShape(s, name, Edge(x, y), mid(vs[x], vs[y]));
      var (r, j) := Intern(s, name, Edge(x, y), mid(vs[x], vs[y]));
      ExtendsTrans(st, s, r);
      var js' := js + [j];
      forall m | 0 <= m < k
        ensures name(EdgeOf(t, m)) in r.vertexMap && r.vertexMap[name(EdgeOf(t, m))] == js'[m]
      {
        if m < k - 1 {
          assert js'[m] == js[m];
        }
      }
      forall p | |st.keys| <= p < |r.keys|
        ensures r.keys[p].Edge? && KeyOfTriangle(r.keys[p], t)
      {
        if p < |s.keys| {
          assert r.keys[p] == r.keys[..|s.keys|][p];
        }
      }
    }
  }

  lemma {:induction false} MidpointsKeepWf<K, V>(st: SubState<K, V>, name: VertexKey -> K, t: Tri, vs: seq<V>,
                                                    mid: (V, V) -> V, k: nat)
    requires Wf(st, name, vs, mid) && TriInRange(t, |vs|) && k <= 3
    ensures Wf(Midpoints(st, name, t, vs, mid, k).0, name, vs, mid)
    decreases k
  {
    if k > 0 {
      MidpointsKeepWf(st, name, t, vs, mid, k - 1);
      var s := Midpoints(st, name, t, vs, mid, k - 1).0;
      var x, y := Corner(t, k - 1), Corner(t, k % 3);
      InternKeepsWf(s, name, Edge(x, y), mid(vs[x], vs[y]), vs, mid);
    }
  }

  /** The corner loop adds only corner keys of the triangle, and leaves the
      `m`-th corner's vertex in the map under that corner's key. */
  lemma {:induction false} OriginalsShape<K, V>(st: SubState<K, V>, name: VertexKey -> K, t: Tri, vs: seq<V>,
                                                   k: nat)
    requires TriInRange(t, |vs|) && k <= 3
    ensures var (r, cs) := Originals(st, name, t, vs, k);
            && Extends(st, r) && r.indices == st.indices
            && (forall m :: 0 <= m < k ==>
                  name(Orig(Corner(t, m))) in r.vertexMap && r.vertexMap[name(Orig(Corner(t, m)))] == cs[m])
            && (forall p :: |st.keys| <= p < |r.keys| ==> r.keys[p].Orig? && KeyOfTriangle(r.keys[p], t))
    decreases k
  {
    if k > 0 {
      OriginalsShape(st, name, t, vs, k - 1);
      var (s, cs) := Originals(st, name, t, vs, k - 1);
      var x := Corner(t, k - 1);
      InternShape(s, name, Orig(x), vs[x]);
      var (r, i) := Intern(s, name, Orig(x), vs[x]);
      ExtendsTrans(st, s, r);
      var cs' := cs + [i];
      forall m | 0 <= m < k
        ensures name(Orig(Corner(t, m))) in r.vertexMap && r.vertexMap[name(Orig(Corner(t, m)))] == cs'[m]
      {
        if m < k - 1 {
          assert cs'[m] == cs[m];
        }
      }
      forall p | |st.keys| <= p < |r.keys|
        ensures r.keys[p].Orig? && KeyOfTriangle(r.keys[p], t)
      {
        if p < |s.keys| {
          assert r.keys[p] == r.keys[..|s.keys|][p];
        }
      }
    }
  }

  lemma {:induction false} OriginalsKeepWf<K, V>(st: SubState<K, V>, name: VertexKey -> K, t: Tri, vs: seq<V>,
                                                    mid: (V, V) -> V, k: nat)
    requires Wf(st, name, vs, mid) && TriInRange(t, |vs|) && k <= 3
    ensures Wf(Originals(st, name, t, vs, k).0, name, vs, mid)
    decreases k
  {
    if k > 0 {
      OriginalsKeepWf(st, name, t, vs, mid, k - 1);
      var s := Originals(st, name, t, vs, k - 1).0;
      var x := Corner(t, k - 1);
      InternKeepsWf(s, name, Orig(x), vs[x], vs, mid);
    }
  }

  /** Every key a triangle needs is in the map. */
  ghost predicate KeysPresent<K>(name: VertexKey -> K, m: map<K, int>, t: Tri) {
    && name(Orig(t.a)) in m && name(Orig(t.b)) in m && name(Orig(t.c)) in m
    && name(Edge(t.a, t.b)) in m && name(Edge(t.b, t.c)) in m && name(Edge(t.c, t.a)) in m
  }

  /** The four triangles that replace `t`, read off the vertex map. */
  ghost function Expected<K>(name: VertexKey -> K, m: map<K, int>, t: Tri): seq<Tri>
    requires KeysPresent(name, m, t)
  {
    Subtriangles([m[name(Orig(t.a))], m[name(Orig(t.b))], m[name(Orig(t.c))]],
                 [m[name(Edge(t.a, t.b))], m[name(Edge(t.b, t.c))], m[name(Edge(t.c, t.a))]])
  }

  lemma ExpectedStable<K>(name: VertexKey -> K, a: map<K, int>, b: map<K, int>, t: Tri)
    requires KeysPresent(name, a, t)
    requires forall s :: s in a ==> s in b && b[s] == a[s]
    ensures KeysPresent(name, b, t) && Expected(name, b, t) == Expected(name, a, t)
  {
  }

  /** Splitting one triangle appends exactly the four triangles the final
      map gives for it. Its new vertices are the triangle's own midpoints
      and corners, the midpoints first. */
  lemma SplitTriangleShape<K, V>(st: SubState<K, V>, name: VertexKey -> K, t: Tri, vs: seq<V>, mid: (V, V) -> V)
    requires TriInRange(t, |vs|)
    ensures var r := SplitTriangle(st, name, t, vs, mid);
            && Extends(st, r)
            && KeysPresent(name, r.vertexMap, t) && r.indices == st.indices + Expected(name, r.vertexMap, t)
            && (forall p :: |st.keys| <= p < |r.keys| ==> KeyOfTriangle(r.keys[p], t))
            && (forall p, q ::
                  |st.keys| <= p < |r.keys| && |st.keys| <= q < |r.keys| && r.keys[p].Edge? && r.keys[q].Orig?
                  ==> p < q)
  {
    MidpointsShape(st, name, t, vs, mid, 3);
    var (s1, js) := Midpoints(st, name, t, vs, mid, 3);
    OriginalsShape(s1, name, t, vs, 3);
    var (s2, cs) := Originals(s1, name, t, vs, 3);
    ExtendsTrans(st, s1, s2);
    var r := s2.(indices := s2.indices + Subtriangles(cs, js));
    assert r == SplitTriangle(st, name, t, vs, mid);
    assert Corner(t, 0) == t.a && Corner(t, 1) == t.b && Corner(t, 2) == t.c;
    assert EdgeOf(t, 0) == Edge(t.a, t.b) && EdgeOf(t, 1) == Edge(t.b, t.c) && EdgeOf(t, 2) == Edge(t.c, t.a);
    assert KeysPresent(name, r.vertexMap, t);
    assert Subtriangles(cs, js) == Expected(name, r.vertexMap, t);
    forall p | |st.keys| <= p < |s1.keys|
      ensures r.keys[p].Edge? && KeyOfTriangle(r.keys[p], t)
    {
      assert r.keys[p] == r.keys[..|s1.keys|][p];
    }
  }

  /** Splitting one triangle keeps the invariant of the vertex map. */
  lemma SplitTriangleKeepsWf<K, V>(st: SubState<K, V>, name: VertexKey -> K, t: Tri, vs: seq<V>,
                                       mid: (V, V) -> V)
    requires Wf(st, name, vs, mid) && TriInRange(t, |vs|)
    ensures Wf(SplitTriangle(st, name, t, vs, mid), name, vs, mid)
  {
    MidpointsKeepWf(st, name, t, vs, mid, 3);
    var (s1, js) := Midpoints(st, name, t, vs, mid, 3);
    OriginalsKeepWf(s1, name, t, vs, mid, 3);
    SplitTriangleShape(st, name, t, vs, mid);
    var r := SplitTriangle(st, name, t, vs, mid);
    var e := Expected(name, r.vertexMap, t);
    forall n | 0 <= n < |r.indices|
      ensures TriInRange(r.indices[n], |r.vertices|)
    {
      if n < |st.indices| {
        assert r.indices[n] == st.indices[n];
      } else {
        assert r.indices[n] in e;
      }
    }
  }

  // ---------------------------------------------------------------------
  // The whole mesh
  // ---------------------------------------------------------------------

  /** Triangle `n` of the input is replaced by new triangles `4n` to
      `4n + 3`, the ones the vertex map gives for it. */
  ghost predicate Covers<K, V>(st: SubState<K, V>, name: VertexKey -> K, tris: seq<Tri>) {
    && |st.indices| == 4 * |tris|
    && forall n :: 0 <= n < |tris| ==>
         KeysPresent(name, st.vertexMap, tris[n]) && st.indices[4 * n .. 4 * n + 4] == Expected(name, st.vertexMap, tris[n])
  }

  /** `key` is a corner or an edge of some triangle of `tris`. */
  ghost predicate OfSomeTriangle(key: VertexKey, tris: seq<Tri>) {
    exists n :: 0 <= n < |tris| && KeyOfTriangle(key, tris[n])
  }

  /** Every new vertex is a corner or an edge midpoint of some triangle. */
  ghost predicate FromTriangles<K, V>(st: SubState<K, V>, tris: seq<Tri>) {
    forall p :: 0 <= p < |st.keys| ==> OfSomeTriangle(st.keys[p], tris)
  }

  /** Splitting the triangles one after the other keeps the invariant of
      the vertex map. */
  lemma {:induction false} SubdividedKeepsWf<K, V>(name: VertexKey -> K, vs: seq<V>, tris: seq<Tri>,
                                                  mid: (V, V) -> V)
    requires IndicesValid(tris, |vs|)
    ensures Wf(Subdivided(name, vs, tris, mid), name, vs, mid)
    decreases |tris|
  {
    if tris != [] {
      var front := tris[..|tris| - 1];
      assert IndicesValid(front, |vs|);
      SubdividedKeepsWf(name, vs, front, mid);
      SplitTriangleKeepsWf(Subdivided(name, vs, front, mid), name, tris[|tris| - 1], vs, mid);
    }
  }

  /** Triangle `n` is replaced by triangles `4n` to `4n + 3`, and every new
      vertex comes from some triangle. */
  lemma {:induction false} SubdividedShape<K, V>(name: VertexKey -> K, vs: seq<V>, tris: seq<Tri>,
                                                mid: (V, V) -> V)
    requires IndicesValid(tris, |vs|)
    ensures var r := Subdivided(name, vs, tris, mid);
            Covers(r, name, tris) && FromTriangles(r, tris)
    decreases |tris|
  {
    if tris != [] {
      var front, t := tris[..|tris| - 1], tris[|tris| - 1];
      assert IndicesValid(front, |vs|);
      SubdividedShape(name, vs, front, mid);
      var st := Subdivided(name, vs, front, mid);
      SplitTriangleShape(st, name, t, vs, mid);
      assert tris == front + [t];
      CoversStep(name, st, SplitTriangle(st, name, t, vs, mid), front, t);
      FromTrianglesStep(st, SplitTriangle(st, name, t, vs, mid), front, t);
    }
  }

  /** Appending the four triangles of `t` to a state that covers `front`
      covers `front + [t]`, provided the old entries are kept. */
  lemma CoversStep<K, V>(name: VertexKey -> K, st: SubState<K, V>, r: SubState<K, V>, front: seq<Tri>, t: Tri)
    requires Covers(st, name, front) && Extends(st, r)
    requires KeysPresent(name, r.vertexMap, t) && r.indices == st.indices + Expected(name, r.vertexMap, t)
    ensures Covers(r, name, front + [t])
  {
    var tris := front + [t];
    forall n | 0 <= n < |tris|
      ensures KeysPresent(name, r.vertexMap, tris[n])
              && r.indices[4 * n .. 4 * n + 4] == Expected(name, r.vertexMap, tris[n])
    {
      if n < |front| {
        assert tris[n] == front[n];
        ExpectedStable(name, st.vertexMap, r.vertexMap, tris[n]);
        assert r.indices[4 * n .. 4 * n + 4] == st.indices[4 * n .. 4 * n + 4];
      } else {
        assert r.indices[4 * n .. 4 * n + 4] == Expected(name, r.vertexMap, t);
      }
    }
  }

  /** The same for where the new vertices come from. */
  lemma FromTrianglesStep<K, V>(st: SubState<K, V>, r: SubState<K, V>, front: seq<Tri>, t: Tri)
    requires FromTriangles(st, front) && Extends(st, r)
    requires forall p :: |st.keys| <= p < |r.keys| ==> KeyOfTriangle(r.keys[p], t)
    ensures FromTriangles(r, front + [t])
  {
    var tris := front + [t];
    forall p | 0 <= p < |r.keys|
      ensures OfSomeTriangle(r.keys[p], tris)
    {
      if p < |st.keys| {
        assert r.keys[p] == r.keys[..|st.keys|][p];
        var n :| 0 <= n < |front| && KeyOfTriangle(st.keys[p], front[n]);
        assert tris[n] == front[n];
      } else {
        assert KeyOfTriangle(r.keys[p], tris[|front|]);
      }
    }
  }

  /** What the subdivided mesh is: four triangles per input triangle, each
      indexing the new vertex list, in input order, built from the new
      vertices of the triangle's corners and edge midpoints; every new
      vertex has the position its key calls for, comes from some triangle,
      and two new vertices never stand for the same corner or the same edge,
      whichever way round the triangles traverse it. */
  lemma SubdivisionFacts<V>(vs: seq<V>, tris: seq<Tri>, mid: (V, V) -> V)
    requires IndicesValid(tris, |vs|)
    ensures var r := Subdivided(KeyString, vs, tris, mid);
            && |r.indices| == 4 * |tris|
            && (forall n :: 0 <= n < |r.indices| ==> TriInRange(r.indices[n], |r.vertices|))
            && |r.keys| == |r.vertices| == |r.vertexMap|
            && (forall p :: 0 <= p < |r.keys| ==>
                  KeyValid(r.keys[p], |vs|) && r.vertices[p] == Meaning(r.keys[p], vs, mid))
            && (forall p, q :: 0 <= p < q < |r.keys| ==> !SameVertex(r.keys[p], r.keys[q]))
            && (forall n :: 0 <= n < |tris| ==>
                  KeysPresent(KeyString, r.vertexMap, tris[n]) && r.indices[4 * n .. 4 * n + 4] == Expected(KeyString, r.vertexMap, tris[n]))
            && FromTriangles(r, tris)
  {
    SubdividedKeepsWf(KeyString, vs, tris, mid);
    SubdividedShape(KeyString, vs, tris, mid);
    var r := Subdivided(KeyString, vs, tris, mid);
    forall p, q | 0 <= p < q < |r.keys|
      ensures !SameVertex(r.keys[p], r.keys[q])
    {
      KeyStringIff(r.keys[p], r.keys[q]);
    }
  }

  // ---------------------------------------------------------------------
  // The loop of the source
  // ---------------------------------------------------------------------

  /** The start of one iteration of the source's loop over triangles: its
      local arrays `i`, the triangle's corner indices, and `v`, their
      positions. */
  method CornerArrays<V(0)>(index: Tri, vs: seq<V>) returns (i: array<int>, v: array<V>)
    requires TriInRange(index, |vs|)
    ensures fresh(i) && fresh(v) && i as object != v as object && i.Length == 3 && v.Length == 3
    ensures forall m :: 0 <= m < 3 ==> i[m] == Corner(index, m) && v[m] == vs[Corner(index, m)]
  {
    i := new int[3];
    v := new V[3];
    for k := 0 to 3
      invariant forall m :: 0 <= m < k ==> i[m] == Corner(index, m) && v[m] == vs[Corner(index, m)]
    {
      i[k] := Corner(index, k);
      v[k] := vs[i[k]];
    }
  }

  /** The midpoint loop of one triangle: the local array `j` receives the
      vertex of each edge midpoint, looked up or added under the edge's
      key. */
  method AddMidpoints<V(0)>(vertexMap: map<string, int>, vertices: seq<V>, indices: seq<Tri>,
                            ghost keys: seq<VertexKey>, index: Tri, vs: seq<V>, mid: (V, V) -> V,
                            i: array<int>, v: array<V>)
    returns (vertexMap': map<string, int>, vertices': seq<V>, ghost keys': seq<VertexKey>, j: array<int>)
    requires TriInRange(index, |vs|) && i.Length == 3 && v.Length == 3
    requires forall m :: 0 <= m < 3 ==> i[m] == Corner(index, m) && v[m] == vs[Corner(index, m)]
    ensures fresh(j) && j.Length == 3
    ensures (SubState(vertexMap', vertices', indices, keys'), j[..])
            == Midpoints(SubState(vertexMap, vertices, indices, keys), KeyString, index, vs, mid, 3)
  {
    vertexMap', vertices', keys' := vertexMap, vertices, keys;
    ghost var st0 := SubState(vertexMap, vertices, indices, keys);
    j := new int[3];
    for k := 0 to 3
      invariant (SubState(vertexMap', vertices', indices, keys'), j[..k])
                == Midpoints(st0, KeyString, index, vs, mid, k)
    {
      var i1 := k;
      var i2 := (k + 1) % 3;
      var u := mid(v[i1], v[i2]);
      var indexString := MidpointIndexToString(i[i1], i[i2]);
      assert indexString == KeyString(Edge(i[i1], i[i2]));
      if indexString in vertexMap' {
        j[k] := vertexMap'[indexString];
      } else {
        j[k] := |vertices'|;
        vertexMap' := vertexMap'[indexString := j[k]];
        vertices' := vertices' + [u];
        keys' := keys' + [Edge(i[i1], i[i2])];
      }
      assert j[..k + 1] == j[..k] + [j[k]];
    }
    assert j[..] == j[..3];
  }

  /** The last loop of one triangle: the four new triangles. */
  method AddSubtriangles(indices: seq<Tri>, i: array<int>, j: array<int>) returns (indices': seq<Tri>)
    requires i.Length == 3 && j.Length == 3
    ensures indices' == indices + Subtriangles(i[..], j[..])
  {
    indices' := indices;
    for k := 0 to 3
      invariant indices' == indices + Subtriangles(i[..], j[..])[..k]
    {
      indices' := indices' + [Tri(i[k], j[k], j[(k + 2) % 3])];
    }
    indices' := indices' + [Tri(j[0], j[1], j[2])];
  }

  /** The corner loop of one triangle: each entry of the local array `i`
      is replaced by the vertex of that corner, looked up or added under
      the corner's key. */
  method AddCorners<V>(vertexMap: map<string, int>, vertices: seq<V>, indices: seq<Tri>,
                       ghost keys: seq<VertexKey>, index: Tri, vs: seq<V>, i: array<int>, v: array<V>)
    returns (vertexMap': map<string, int>, vertices': seq<V>, ghost keys': seq<VertexKey>)
    requires TriInRange(index, |vs|) && i.Length == 3 && v.Length == 3 && i as object != v as object
    requires forall m :: 0 <= m < 3 ==> i[m] == Corner(index, m) && v[m] == vs[Corner(index, m)]
    modifies i
    ensures (SubState(vertexMap', vertices', indices, keys'), i[..])
            == Originals(SubState(vertexMap, vertices, indices, keys), KeyString, index, vs, 3)
  {
    vertexMap', vertices', keys' := vertexMap, vertices, keys;
    ghost var st1 := SubState(vertexMap, vertices, indices, keys);
    for k := 0 to 3
      invariant forall m :: k <= m < 3 ==> i[m] == Corner(index, m)
      invariant forall m :: 0 <= m < 3 ==> v[m] == vs[Corner(index, m)]
      invariant (SubState(vertexMap', vertices', indices, keys'), i[..k]) == Originals(st1, KeyString, index, vs, k)
    {
      var indexString := IntToString(i[k]);
      assert indexString == KeyString(Orig(Corner(index, k)));
      if indexString in vertexMap' {
        i[k] := vertexMap'[indexString];
      } else {
        i[k] := |vertices'|;
        vertexMap' := vertexMap'[indexString := i[k]];
        vertices' := vertices' + [v[k]];
        keys' := keys' + [Orig(Corner(index, k))];
      }
      assert i[..k + 1] == i[..k] + [i[k]];
    }
    assert i[..] == i[..3];
  }

  /** One iteration of the source's loop over triangles: `i` ends up
      holding the new vertices of the corners, `j` those of the edge
      midpoints. */
  method SubdivideTriangle<V(0)>(vertexMap: map<string, int>, vertices: seq<V>, indices: seq<Tri>,
                                 ghost keys: seq<VertexKey>, index: Tri, vs: seq<V>, mid: (V, V) -> V)
    returns (vertexMap': map<string, int>, vertices': seq<V>, indices': seq<Tri>, ghost keys': seq<VertexKey>)
    requires TriInRange(index, |vs|)
    ensures SubState(vertexMap', vertices', indices', keys')
            == SplitTriangle(SubState(vertexMap, vertices, indices, keys), KeyString, index, vs, mid)
  {
    var i, v := CornerArrays(index, vs);
    var j;
    vertexMap', vertices', keys', j := AddMidpoints(vertexMap, vertices, indices, keys, index, vs, mid, i, v);
    vertexMap', vertices', keys' := AddCorners(vertexMap', vertices', indices, keys', index, vs, i, v);
    indices' := AddSubtriangles(indices, i, j);
  }

  /** The source's loop over one mesh's triangles, with the per-mesh vertex
      map keyed by strings. */
  method SubdivideTriangles<V(0)>(vs: seq<V>, tris: seq<Tri>, mid: (V, V) -> V)
    returns (vertices: seq<V>, indices: seq<Tri>)
    requires IndicesValid(tris, |vs|)
    ensures vertices == Subdivided(KeyString, vs, tris, mid).vertices
    ensures indices == Subdivided(KeyString, vs, tris, mid).indices
  {
    var vertexMap: map<string, int> := map[];
    vertices, indices := [], [];
    ghost var keys: seq<VertexKey> := [];
    for q := 0 to |tris|
      invariant SubState(vertexMap, vertices, indices, keys) == Subdivided(KeyString, vs, tris[..q], mid)
    {
      assert TriInRange(tris[q], |vs|);
      vertexMap, vertices, indices, keys := SubdivideTriangle(vertexMap, vertices, indices, keys, tris[q], vs, mid);
      assert tris[..q + 1][..q] == tris[..q];
    }
    assert tris[..|tris|] == tris;
  }
}
