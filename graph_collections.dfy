/**
 * The graph-collection membership algebra: vertices and edges are stored
 * once, each carrying the set of logical graphs it belongs to, and the
 * operators derive new graphs by adding a fresh graph id to the membership
 * of the elements they select.
 */
module GraphCollections {
  import opened JavaTypes

  type GraphId = int

  /** A stored vertex: its label and the logical graphs it belongs to. */
  datatype Vertex = Vertex(vertexLabel: string, graphs: set<GraphId>)

  /** A stored edge: its endpoints (vertex ids), label and graph memberships. */
  datatype Edge = Edge(source: int, target: int, edgeLabel: string, graphs: set<GraphId>)

  /** The shared element store, keyed by element id. */
  datatype Database = Database(vertices: map<int, Vertex>, edges: map<int, Edge>)

  /**
   * No dangling edges: every edge's endpoints exist, and a graph holding an
   * edge holds both its endpoints.
   */
  predicate Valid(db: Database) {
    forall e :: e in db.edges ==>
      && db.edges[e].source in db.vertices && db.edges[e].target in db.vertices
      && db.edges[e].graphs <= db.vertices[db.edges[e].source].graphs
      && db.edges[e].graphs <= db.vertices[db.edges[e].target].graphs
  }

  /** The vertex set of logical graph g. */
  function VertexIds(db: Database, g: GraphId): set<int> {
    set v | v in db.vertices && g in db.vertices[v].graphs
  }

  /** The edge set of logical graph g. */
  function EdgeIds(db: Database, g: GraphId): set<int> {
    set e | e in db.edges && g in db.edges[e].graphs
  }

  /** No element belongs to g yet: g may be minted as a new graph id. */
  predicate Fresh(db: Database, g: GraphId) {
    VertexIds(db, g) == {} && EdgeIds(db, g) == {}
  }

  // ------------------------------------------------------------ overlap

  predicate InBoth(graphs: set<GraphId>, g1: GraphId, g2: GraphId) {
    g1 in graphs && g2 in graphs
  }

  predicate VertexInBoth(db: Database, v: int, g1: GraphId, g2: GraphId) {
    v in db.vertices && InBoth(db.vertices[v].graphs, g1, g2)
  }

  /** An edge joins the overlap when it and both its endpoints are in both graphs. */
  predicate EdgeInBoth(db: Database, e: Edge, g1: GraphId, g2: GraphId) {
    InBoth(e.graphs, g1, g2) && VertexInBoth(db, e.source, g1, g2) && VertexInBoth(db, e.target, g1, g2)
  }

  /**
   * overlap: the new graph g3 receives every vertex in both g1 and g2, and
   * every edge in both whose endpoints are too; nothing else changes.
   */
  function Overlap(db: Database, g1: GraphId, g2: GraphId, g3: GraphId): (r: Database)
    ensures r.vertices.Keys == db.vertices.Keys && r.edges.Keys == db.edges.Keys
    ensures forall v :: v in db.vertices ==>
      && r.vertices[v].vertexLabel == db.vertices[v].vertexLabel
      && (VertexInBoth(db, v, g1, g2) ==> r.vertices[v].graphs == db.vertices[v].graphs + {g3})
      && (!VertexInBoth(db, v, g1, g2) ==> r.vertices[v].graphs == db.vertices[v].graphs)
    ensures forall e :: e in db.edges ==>
      && r.edges[e].source == db.edges[e].source && r.edges[e].target == db.edges[e].target
      && r.edges[e].edgeLabel == db.edges[e].edgeLabel
      && (EdgeInBoth(db, db.edges[e], g1, g2) ==> r.edges[e].graphs == db.edges[e].graphs + {g3})
      && (!EdgeInBoth(db, db.edges[e], g1, g2) ==> r.edges[e].graphs == db.edges[e].graphs)
  {
    Database(
      map v | v in db.vertices ::
        if VertexInBoth(db, v, g1, g2) then db.vertices[v].(graphs := db.vertices[v].graphs + {g3})
        else db.vertices[v],
      map e | e in db.edges ::
        if EdgeInBoth(db, db.edges[e], g1, g2) then db.edges[e].(graphs := db.edges[e].graphs + {g3})
        else db.edges[e])
  }

  /** A fresh g3 ends up holding exactly the vertices common to g1 and g2. */
  lemma OverlapVertexIds(db: Database, g1: GraphId, g2: GraphId, g3: GraphId)
    requires Fresh(db, g3)
    ensures VertexIds(Overlap(db, g1, g2, g3), g3) == VertexIds(db, g1) * VertexIds(db, g2)
  {
    var r := Overlap(db, g1, g2, g3);
    forall v ensures v in VertexIds(r, g3) <==> v in VertexIds(db, g1) * VertexIds(db, g2) {
      if v in db.vertices {
        assert v !in VertexIds(db, g3);
      }
    }
  }

  /**
   * A fresh g3 ends up holding the edges common to g1 and g2 whose
   * endpoints are both common vertices.
   */
  lemma OverlapEdgeIds(db: Database, g1: GraphId, g2: GraphId, g3: GraphId)
    requires Fresh(db, g3)
    ensures var common := VertexIds(db, g1) * VertexIds(db, g2);
      EdgeIds(Overlap(db, g1, g2, g3), g3) ==
        set e | e in EdgeIds(db, g1) * EdgeIds(db, g2) && db.edges[e].source in common && db.edges[e].target in common
  {
    var r := Overlap(db, g1, g2, g3);
    var common := VertexIds(db, g1) * VertexIds(db, g2);
    forall e | e in db.edges
      ensures e in EdgeIds(r, g3) <==> e in EdgeIds(db, g1) * EdgeIds(db, g2) && db.edges[e].source in common && db.edges[e].target in common
    {
      assert e !in EdgeIds(db, g3);
    }
  }

  /** In a store without dangling edges, the endpoint test selects nothing extra: g3's edges are those of both graphs. */
  lemma OverlapEdgeIdsValid(db: Database, g1: GraphId, g2: GraphId, g3: GraphId)
    requires Valid(db) && Fresh(db, g3)
    ensures EdgeIds(Overlap(db, g1, g2, g3), g3) == EdgeIds(db, g1) * EdgeIds(db, g2)
  {
    var r := Overlap(db, g1, g2, g3);
    forall e ensures e in EdgeIds(r, g3) <==> e in EdgeIds(db, g1) * EdgeIds(db, g2) {
      if e in db.edges {
        assert e !in EdgeIds(db, g3);
      }
    }
  }

  /** overlap(g1, g2) and overlap(g2, g1) select the same elements. */
  lemma OverlapSymmetric(db: Database, g1: GraphId, g2: GraphId, g3: GraphId)
    ensures Overlap(db, g1, g2, g3) == Overlap(db, g2, g1, g3)
  {
    var a := Overlap(db, g1, g2, g3);
    var b := Overlap(db, g2, g1, g3);
    assert a.vertices == b.vertices;
    assert a.edges == b.edges;
  }

  /** Overlapping a graph with itself yields its full content. */
  lemma OverlapSelf(db: Database, g: GraphId, g3: GraphId)
    requires Valid(db) && Fresh(db, g3)
    ensures VertexIds(Overlap(db, g, g, g3), g3) == VertexIds(db, g)
    ensures EdgeIds(Overlap(db, g, g, g3), g3) == EdgeIds(db, g)
  {
    OverlapVertexIds(db, g, g, g3);
    OverlapEdgeIdsValid(db, g, g, g3);
  }

  /** Graphs without a common vertex overlap in an empty graph, whatever the edges. */
  lemma OverlapDisjoint(db: Database, g1: GraphId, g2: GraphId, g3: GraphId)
    requires Fresh(db, g3) && VertexIds(db, g1) * VertexIds(db, g2) == {}
    ensures VertexIds(Overlap(db, g1, g2, g3), g3) == {}
    ensures EdgeIds(Overlap(db, g1, g2, g3), g3) == {}
  {
    OverlapVertexIds(db, g1, g2, g3);
    OverlapEdgeIds(db, g1, g2, g3);
  }

  /** Every graph other than g3 keeps its vertices and edges. */
  lemma OverlapKeepsOtherGraphs(db: Database, g1: GraphId, g2: GraphId, g3: GraphId, h: GraphId)
    requires h != g3
    ensures VertexIds(Overlap(db, g1, g2, g3), h) == VertexIds(db, h)
    ensures EdgeIds(Overlap(db, g1, g2, g3), h) == EdgeIds(db, h)
  {
  }

  /** A selected vertex keeps its graph ids and gains exactly one, the fresh g3. */
  lemma OverlapGainsOneGraph(db: Database, g1: GraphId, g2: GraphId, g3: GraphId, v: int)
    requires Fresh(db, g3) && v in VertexIds(db, g1) * VertexIds(db, g2)
    ensures db.vertices[v].graphs < Overlap(db, g1, g2, g3).vertices[v].graphs
    ensures |Overlap(db, g1, g2, g3).vertices[v].graphs| == |db.vertices[v].graphs| + 1
  {
    assert v !in VertexIds(db, g3);
  }

  /** A selected edge likewise keeps all its graph ids and gains exactly one. */
  lemma OverlapEdgeGainsOneGraph(db: Database, g1: GraphId, g2: GraphId, g3: GraphId, e: int)
    requires Fresh(db, g3) && e in db.edges && EdgeInBoth(db, db.edges[e], g1, g2)
    ensures db.edges[e].graphs < Overlap(db, g1, g2, g3).edges[e].graphs
    ensures |Overlap(db, g1, g2, g3).edges[e].graphs| == |db.edges[e].graphs| + 1
  {
    assert e !in EdgeIds(db, g3);
  }

  /** Overlap creates no dangling edge. */
  lemma OverlapPreservesValid(db: Database, g1: GraphId, g2: GraphId, g3: GraphId)
    requires Valid(db)
    ensures Valid(Overlap(db, g1, g2, g3))
  {
  }

  // ------------------------------------------------------------ split-by

  /**
   * The new graphs vertex v joins: one per label its classification
   * yields, when v belongs to the graph being split.
   */
  function Joined(db: Database, g: GraphId, classify: (int, Vertex) -> seq<int>, mint: int -> GraphId, v: int): set<GraphId> {
    if v in db.vertices && g in db.vertices[v].graphs then set l | l in classify(v, db.vertices[v]) :: mint(l) else {}
  }

  /** The new graphs an edge of g joins: those both its endpoints joined. */
  function EdgeJoined(db: Database, g: GraphId, classify: (int, Vertex) -> seq<int>, mint: int -> GraphId, e: Edge): set<GraphId> {
    if g in e.graphs then Joined(db, g, classify, mint, e.source) * Joined(db, g, classify, mint, e.target) else {}
  }

  /** Every label the classification yields for some vertex of g. */
  function Labels(db: Database, g: GraphId, classify: (int, Vertex) -> seq<int>): set<int> {
    set v, l | v in db.vertices && g in db.vertices[v].graphs && l in classify(v, db.vertices[v]) :: l
  }

  /** The graph ids minted for the labels, one per label. */
  function NewGraphs(db: Database, g: GraphId, classify: (int, Vertex) -> seq<int>, mint: int -> GraphId): set<GraphId> {
    set l | l in Labels(db, g, classify) :: mint(l)
  }

  /**
   * split-by: each vertex of g joins the graphs minted for its labels, and
   * each edge of g joins those both its endpoints joined; no membership is
   * removed.
   */
  function SplitBy(db: Database, g: GraphId, classify: (int, Vertex) -> seq<int>, mint: int -> GraphId): (r: Database)
    ensures r.vertices.Keys == db.vertices.Keys && r.edges.Keys == db.edges.Keys
    ensures forall v :: v in db.vertices ==>
      && r.vertices[v].vertexLabel == db.vertices[v].vertexLabel
      && r.vertices[v].graphs == db.vertices[v].graphs + Joined(db, g, classify, mint, v)
    ensures forall e :: e in db.edges ==>
      && r.edges[e].source == db.edges[e].source && r.edges[e].target == db.edges[e].target
      && r.edges[e].edgeLabel == db.edges[e].edgeLabel
      && r.edges[e].graphs == db.edges[e].graphs + EdgeJoined(db, g, classify, mint, db.edges[e])
  {
    Database(
      map v | v in db.vertices ::
        db.vertices[v].(graphs := db.vertices[v].graphs + Joined(db, g, classify, mint, v)),
      map e | e in db.edges ::
        db.edges[e].(graphs := db.edges[e].graphs + EdgeJoined(db, g, classify, mint, db.edges[e])))
  }

  ghost predicate Injective(mint: int -> GraphId) {
    forall a, b :: mint(a) == mint(b) ==> a == b
  }

  lemma JoinedByLabel(db: Database, g: GraphId, classify: (int, Vertex) -> seq<int>, mint: int -> GraphId, v: int, l: int)
    requires Injective(mint)
    ensures mint(l) in Joined(db, g, classify, mint, v) <==>
      v in db.vertices && g in db.vertices[v].graphs && l in classify(v, db.vertices[v])
  {
  }

  /** A vertex belongs to the graph minted for label l exactly when it is in g and classified under l. */
  lemma SplitVertexIds(db: Database, g: GraphId, classify: (int, Vertex) -> seq<int>, mint: int -> GraphId, l: int)
    requires Injective(mint) && Fresh(db, mint(l))
    ensures VertexIds(SplitBy(db, g, classify, mint), mint(l)) ==
      set v | v in db.vertices && g in db.vertices[v].graphs && l in classify(v, db.vertices[v])
  {
    var r := SplitBy(db, g, classify, mint);
    forall v | v in db.vertices
      ensures v in VertexIds(r, mint(l)) <==> g in db.vertices[v].graphs && l in classify(v, db.vertices[v])
    {
      assert v !in VertexIds(db, mint(l));
      JoinedByLabel(db, g, classify, mint, v, l);
    }
  }

  /** An edge belongs to the graph minted for label l exactly when it is in g and both endpoints are classified under l. */
  lemma SplitEdgeIds(db: Database, g: GraphId, classify: (int, Vertex) -> seq<int>, mint: int -> GraphId, l: int)
    requires Injective(mint) && Fresh(db, mint(l))
    ensures EdgeIds(SplitBy(db, g, classify, mint), mint(l)) ==
      set e | e in db.edges && g in db.edges[e].graphs
        && mint(l) in Joined(db, g, classify, mint, db.edges[e].source)
        && mint(l) in Joined(db, g, classify, mint, db.edges[e].target)
  {
    var r := SplitBy(db, g, classify, mint);
    forall e | e in db.edges ensures e !in EdgeIds(db, mint(l)) {
    }
  }

  /** An edge joins a minted graph only if both endpoints did, through their own labels. */
  lemma SplitEdgeNeedsEndpoints(db: Database, g: GraphId, classify: (int, Vertex) -> seq<int>, mint: int -> GraphId, l: int, e: int)
    requires Injective(mint) && Fresh(db, mint(l))
    requires e in EdgeIds(SplitBy(db, g, classify, mint), mint(l))
    ensures var x := db.edges[e];
      && x.source in db.vertices && l in classify(x.source, db.vertices[x.source])
      && x.target in db.vertices && l in classify(x.target, db.vertices[x.target])
      && x.source in VertexIds(SplitBy(db, g, classify, mint), mint(l))
      && x.target in VertexIds(SplitBy(db, g, classify, mint), mint(l))
  {
    SplitEdgeIds(db, g, classify, mint, l);
    var x := db.edges[e];
    JoinedByLabel(db, g, classify, mint, x.source, l);
    JoinedByLabel(db, g, classify, mint, x.target, l);
    SplitVertexIds(db, g, classify, mint, l);
  }

  /** Any graph that is not newly minted, g itself included, keeps its vertices and edges. */
  lemma SplitKeepsOtherGraphs(db: Database, g: GraphId, classify: (int, Vertex) -> seq<int>, mint: int -> GraphId, h: GraphId)
    requires h !in NewGraphs(db, g, classify, mint)
    ensures VertexIds(SplitBy(db, g, classify, mint), h) == VertexIds(db, h)
    ensures EdgeIds(SplitBy(db, g, classify, mint), h) == EdgeIds(db, h)
  {
    forall v | v in db.vertices ensures h !in Joined(db, g, classify, mint, v) {
      forall l | l in classify(v, db.vertices[v]) && g in db.vertices[v].graphs ensures mint(l) != h {
        assert l in Labels(db, g, classify);
      }
    }
  }

  /** Split-by creates no dangling edge. */
  lemma SplitPreservesValid(db: Database, g: GraphId, classify: (int, Vertex) -> seq<int>, mint: int -> GraphId)
    requires Valid(db)
    ensures Valid(SplitBy(db, g, classify, mint))
  {
  }

  lemma NoElementMeansEmpty(s: set<int>)
    ensures (forall y :: y !in s) ==> s == {}
  {
    if forall y :: y !in s {
      assert s == {};
    }
  }

  lemma Pick(s: set<int>) returns (x: int)
    requires s != {}
    ensures x in s
  {
    NoElementMeansEmpty(s);
    x :| x in s;
  }

  /** The image of a set under an injective map has as many elements as the set. */
  lemma {:induction false} InjectiveImageSize(s: set<int>, mint: int -> GraphId)
    requires Injective(mint)
    ensures |set l | l in s :: mint(l)| == |s|
    decreases |s|
  {
    if s != {} {
      var x := Pick(s);
      var rest := s - {x};
      InjectiveImageSize(rest, mint);
      assert (set l | l in s :: mint(l)) == (set l | l in rest :: mint(l)) + {mint(x)};
      assert mint(x) !in (set l | l in rest :: mint(l));
    }
  }

  /** One new graph per distinct label. */
  lemma SplitGraphCount(db: Database, g: GraphId, classify: (int, Vertex) -> seq<int>, mint: int -> GraphId)
    requires Injective(mint)
    ensures |NewGraphs(db, g, classify, mint)| == |Labels(db, g, classify)|
  {
    InjectiveImageSize(Labels(db, g, classify), mint);
  }
}
