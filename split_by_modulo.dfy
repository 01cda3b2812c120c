/**
 * SplitByModulo, the classifier the split-by test drives: it sends each
 * vertex to graph label -2 when its id is even, -3 when the id is a
 * multiple of 3, and -1 when neither applies.
 */
module SplitByModulo {
  import opened JavaTypes
  import opened GraphCollections

  /**
   * The labels SplitByModulo gives vertex `id`: -2 when the id is even, -3
   * when it is a multiple of 3, and -1 when neither applies.
   */
  function ModuloLabels(id: int): (r: seq<int>)
    ensures -2 in r <==> JavaRem(id, 2) == 0
    ensures -3 in r <==> JavaRem(id, 3) == 0
    ensures -1 in r <==> JavaRem(id, 2) != 0 && JavaRem(id, 3) != 0
    ensures 1 <= |r| <= 2 && (|r| == 2 ==> r == [-2, -3])
    ensures forall x :: x in r ==> x == -1 || x == -2 || x == -3
  {
    var halves: seq<int> := if JavaRem(id, 2) == 0 then [-2] else [];
    var thirds: seq<int> := if JavaRem(id, 3) == 0 then [-3] else [];
    if halves + thirds == [] then [-1] else halves + thirds
  }

  /** The Java remainder tests are the mathematical ones, for negative ids too. */
  lemma ModuloLabelsByDivisibility(id: int)
    ensures -2 in ModuloLabels(id) <==> id % 2 == 0
    ensures -3 in ModuloLabels(id) <==> id % 3 == 0
    ensures -1 in ModuloLabels(id) <==> id % 2 != 0 && id % 3 != 0
  {
    JavaRemZero(id, 2);
    JavaRemZero(id, 3);
  }

  /** SplitByModulo.execute: builds the label list step by step with its inNewGraph flag. */
  method Execute(id: int) returns (list: seq<int>)
    ensures list == ModuloLabels(id)
    ensures |list| >= 1
  {
    list := [];
    var inNewGraph := false;
    if JavaRem(id, 2) == 0 {
      list := list + [-2];
      inNewGraph := true;
    }
    if JavaRem(id, 3) == 0 {
      list := list + [-3];
      inNewGraph := true;
    }
    if !inNewGraph {
      list := list + [-1];
    }
  }

  /** The classifier as split-by sees it: only the vertex id is read. */
  function Classify(v: int, x: Vertex): (r: seq<int>)
    ensures r != []
    ensures -2 in r <==> v % 2 == 0
    ensures -3 in r <==> v % 3 == 0
    ensures -1 in r <==> v % 2 != 0 && v % 3 != 0
  {
    ModuloLabelsByDivisibility(v);
    ModuloLabels(v)
  }

  /**
   * Splitting a graph by modulo mints at most three graphs, and exactly
   * three when the graph has an even vertex, a multiple of 3 and a vertex
   * that is neither.
   */
  lemma ModuloSplitThreeGraphs(db: Database, g: GraphId, mint: int -> GraphId, even: int, triple: int, other: int)
    requires Injective(mint)
    requires even in VertexIds(db, g) && even % 2 == 0
    requires triple in VertexIds(db, g) && triple % 3 == 0
    requires other in VertexIds(db, g) && other % 2 != 0 && other % 3 != 0
    ensures Labels(db, g, Classify) == {-1, -2, -3}
    ensures |NewGraphs(db, g, Classify, mint)| == 3
  {
    var c := Classify;
    ModuloLabelsByDivisibility(even);
    ModuloLabelsByDivisibility(triple);
    ModuloLabelsByDivisibility(other);
    assert -2 in c(even, db.vertices[even]);
    assert -3 in c(triple, db.vertices[triple]);
    assert -1 in c(other, db.vertices[other]);
    var ls := Labels(db, g, c);
    assert {-1, -2, -3} <= ls;
    forall l | l in ls ensures l in {-1, -2, -3} {
      var v :| v in db.vertices && g in db.vertices[v].graphs && l in c(v, db.vertices[v]);
    }
    SplitGraphCount(db, g, c, mint);
  }

  /** Every vertex of the split graph lands in at least one of the new graphs. */
  lemma ModuloSplitCoversGraph(db: Database, g: GraphId, mint: int -> GraphId, v: int)
    requires v in VertexIds(db, g)
    ensures var r := SplitBy(db, g, Classify, mint);
      v in VertexIds(r, mint(-1)) + VertexIds(r, mint(-2)) + VertexIds(r, mint(-3))
  {
    var l := ModuloLabels(v)[0];
    assert mint(l) in Joined(db, g, Classify, mint, v);
  }
}
