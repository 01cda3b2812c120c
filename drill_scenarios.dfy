/**
 * The drill-up scenarios of the drilling tests, over their input graph:
 * two forums with a member count, four users with a birth time in
 * milliseconds, five `member` edges with an `until` time and five `knows`
 * edges with a `since` time (string-valued properties are not carried).
 */
module DrillScenarios {
  import opened JavaTypes
  import opened Wrappers
  import opened Drilling

  function Forum(id: int, memberCount: i64): Element {
    Element(id, "Forum", map["memberCount" := memberCount])
  }

  function User(id: int, birthMillis: i64): Element {
    Element(id, "User", map["birthMillis" := birthMillis])
  }

  function Member(id: int): Element {
    Element(id, "member", map["until" := 1550000000000])
  }

  function Knows(id: int): Element {
    Element(id, "knows", map["since" := 1350000000000])
  }

  function Users(): seq<Element> {
    [User(2, 500000000000), User(3, 530000000000), User(4, 560000000000), User(5, 590000000000)]
  }

  function Edges(): seq<Element> {
    [Member(0), Member(1), Member(2), Member(3), Member(4), Knows(5), Knows(6), Knows(7), Knows(8), Knows(9)]
  }

  function DrillInput(): LogicalGraph {
    LogicalGraph([Forum(0, 1563145521), Forum(1, 451341564)] + Users(), Edges())
  }

  const BY_1000: DrillFunction := DivideBy(1000)

  /** drillUpVertex("memberCount", divide by 1000) on a forum. */
  lemma InPlaceOnForum(id: int, count: i64)
    requires 0 <= count
    ensures DrillElement(Forum(id, count), Drill("memberCount", None, BY_1000, true))
      == Element(id, "Forum", map["memberCount" := (count as int / 1000) as i64, "memberCount__1" := count])
  {
    var props := Forum(id, count).properties;
    assert SuffixKey("memberCount", 1) == "memberCount__1";
    assert NextFreeSuffix("memberCount", props) == 1;
  }

  /**
   * The in-place vertex drill of the tests: each forum's member count is
   * divided by 1000 and its old value kept under memberCount__1; users and
   * edges, which lack the key or are not drilled, come out unchanged.
   */
  lemma VertexRollUpInPlace()
    ensures DrillUpVertex(DrillInput(), "memberCount", BY_1000) == LogicalGraph(
      [ Element(0, "Forum", map["memberCount" := 1563145, "memberCount__1" := 1563145521]),
        Element(1, "Forum", map["memberCount" := 451341, "memberCount__1" := 451341564]) ] + Users(),
      Edges())
  {
    var d := Drill("memberCount", None, BY_1000, true);
    InPlaceOnForum(0, 1563145521);
    InPlaceOnForum(1, 451341564);
    forall i | 0 <= i < |Users()| ensures DrillElement(Users()[i], d) == Users()[i] {
      DrillMissingKey(Users()[i], d);
    }
  }

  /** The drills the other tests build with DrillBuilder. */
  function VertexDrill(key: string, newKey: Option<string>, divisor: Divisor): (d: Drill)
    ensures d == Drill(key, newKey, DivideBy(divisor), true)
  {
    BuildDrillUp(DrillBuilder(Some(key), newKey, Some(DivideBy(divisor)), true)).value
  }

  /** A vertex drill is settled vertex by vertex. */
  lemma ExecuteVertices(g: LogicalGraph, d: Drill, expected: seq<Element>)
    requires d.drillVertex && |expected| == |g.vertices|
    requires forall i :: 0 <= i < |expected| ==> DrillElement(g.vertices[i], d) == expected[i]
    ensures Execute(g, d) == LogicalGraph(expected, g.edges)
  {
  }

  lemma NewKeyOnForum(id: int, count: i64)
    requires 0 <= count
    ensures DrillElement(Forum(id, count), VertexDrill("memberCount", Some("memberCount_in_K"), 1000))
      == Element(id, "Forum", map["memberCount" := count, "memberCount_in_K" := (count as int / 1000) as i64])
  {
    DrillNewKey(Forum(id, count).properties, "memberCount", "memberCount_in_K", BY_1000);
  }

  /**
   * Drilling into a new key: each forum keeps its member count and gains
   * memberCount_in_K; no suffixed key appears.
   */
  lemma VertexRollUpNewKey()
    ensures Execute(DrillInput(), VertexDrill("memberCount", Some("memberCount_in_K"), 1000)) == LogicalGraph(
      [ Element(0, "Forum", map["memberCount" := 1563145521, "memberCount_in_K" := 1563145]),
        Element(1, "Forum", map["memberCount" := 451341564, "memberCount_in_K" := 451341]) ] + Users(),
      Edges())
  {
    var g := DrillInput();
    var d := VertexDrill("memberCount", Some("memberCount_in_K"), 1000);
    var expected := [ Element(0, "Forum", map["memberCount" := 1563145521, "memberCount_in_K" := 1563145]),
        Element(1, "Forum", map["memberCount" := 451341564, "memberCount_in_K" := 451341]) ] + Users();
    forall i | 0 <= i < |expected| ensures DrillElement(g.vertices[i], d) == expected[i] {
      if i == 0 {
        NewKeyOnForum(0, 1563145521);
      } else if i == 1 {
        NewKeyOnForum(1, 451341564);
      } else {
        DrillMissingKey(g.vertices[i], d);
      }
    }
    ExecuteVertices(g, d, expected);
  }

  lemma SecondInPlaceOnForum(id: int, count: i64, first: i64)
    requires 0 <= count
    ensures DrillElement(Element(id, "Forum", map["memberCount" := count, "memberCount__1" := first]),
                         Drill("memberCount", None, BY_1000, true))
      == Element(id, "Forum", map["memberCount" := (count as int / 1000) as i64,
                                  "memberCount__1" := first, "memberCount__2" := count])
  {
    var props := map["memberCount" := count, "memberCount__1" := first];
    assert SuffixKey("memberCount", 1) == "memberCount__1";
    assert SuffixKey("memberCount", 2) == "memberCount__2";
    assert NextFreeSuffix("memberCount", props) == 2;
  }

  /**
   * Two chained in-place drills: memberCount__1 keeps the original count,
   * memberCount__2 the once-divided one, and memberCount is divided twice.
   */
  lemma VertexRollUpChained()
    ensures DrillUpVertex(DrillUpVertex(DrillInput(), "memberCount", BY_1000), "memberCount", BY_1000) == LogicalGraph(
      [ Element(0, "Forum", map["memberCount" := 1563, "memberCount__1" := 1563145521, "memberCount__2" := 1563145]),
        Element(1, "Forum", map["memberCount" := 451, "memberCount__1" := 451341564, "memberCount__2" := 451341]) ]
        + Users(),
      Edges())
  {
    var d := Drill("memberCount", None, BY_1000, true);
    VertexRollUpInPlace();
    var g := DrillUpVertex(DrillInput(), "memberCount", BY_1000);
    var expected :=
      [ Element(0, "Forum", map["memberCount" := 1563, "memberCount__1" := 1563145521, "memberCount__2" := 1563145]),
        Element(1, "Forum", map["memberCount" := 451, "memberCount__1" := 451341564, "memberCount__2" := 451341]) ]
        + Users();
    forall i | 0 <= i < |expected| ensures DrillElement(g.vertices[i], d) == expected[i] {
      if i == 0 {
        SecondInPlaceOnForum(0, 1563145, 1563145521);
      } else if i == 1 {
        SecondInPlaceOnForum(1, 451341, 451341564);
      } else {
        DrillMissingKey(g.vertices[i], d);
      }
    }
    ExecuteVertices(g, d, expected);
  }

  lemma NewKeyInKOnForum(id: int, count: i64, inK: i64)
    requires 0 <= inK
    ensures DrillElement(Element(id, "Forum", map["memberCount" := count, "memberCount_in_K" := inK]),
                         VertexDrill("memberCount_in_K", Some("memberCount_in_M"), 1000))
      == Element(id, "Forum", map["memberCount" := count, "memberCount_in_K" := inK,
                                  "memberCount_in_M" := (inK as int / 1000) as i64])
  {
    DrillNewKey(map["memberCount" := count, "memberCount_in_K" := inK], "memberCount_in_K", "memberCount_in_M", BY_1000);
  }

  /** Chained new-key drills read the current value of their source key. */
  lemma VertexRollUpNewKeyChained()
    ensures Execute(Execute(DrillInput(), VertexDrill("memberCount", Some("memberCount_in_K"), 1000)),
                    VertexDrill("memberCount_in_K", Some("memberCount_in_M"), 1000)) == LogicalGraph(
      [ Element(0, "Forum", map["memberCount" := 1563145521, "memberCount_in_K" := 1563145, "memberCount_in_M" := 1563]),
        Element(1, "Forum", map["memberCount" := 451341564, "memberCount_in_K" := 451341, "memberCount_in_M" := 451]) ]
        + Users(),
      Edges())
  {
    var d := VertexDrill("memberCount_in_K", Some("memberCount_in_M"), 1000);
    VertexRollUpNewKey();
    var g := Execute(DrillInput(), VertexDrill("memberCount", Some("memberCount_in_K"), 1000));
    var expected :=
      [ Element(0, "Forum", map["memberCount" := 1563145521, "memberCount_in_K" := 1563145, "memberCount_in_M" := 1563]),
        Element(1, "Forum", map["memberCount" := 451341564, "memberCount_in_K" := 451341, "memberCount_in_M" := 451]) ]
        + Users();
    forall i | 0 <= i < |expected| ensures DrillElement(g.vertices[i], d) == expected[i] {
      if i == 0 {
        NewKeyInKOnForum(0, 1563145521, 1563145);
      } else if i == 1 {
        NewKeyInKOnForum(1, 451341564, 451341);
      } else {
        DrillMissingKey(g.vertices[i], d);
      }
    }
    ExecuteVertices(g, d, expected);
  }

  // The mixed chain: birthMillis into birth (/1000), birth twice in place
  // (/60), then birth into birthDays (/24).

  const TO_SECONDS: Drill := VertexDrill("birthMillis", Some("birth"), 1000)
  const TO_MINUTES: Drill := VertexDrill("birth", None, 60)
  const TO_DAYS: Drill := VertexDrill("birth", Some("birthDays"), 24)

  const MIXED_CHAIN: seq<Drill> := [TO_SECONDS, TO_MINUTES, TO_MINUTES, TO_DAYS]

  /** Chained callForGraph: the drills of `ds`, one after the other. */
  function ExecuteChain(g: LogicalGraph, ds: seq<Drill>): LogicalGraph
    decreases |ds|
  {
    if ds == [] then g else ExecuteChain(Execute(g, ds[0]), ds[1..])
  }

  /** One element under the drills of `ds`, one after the other. */
  function DrillChain(e: Element, ds: seq<Drill>): Element
    decreases |ds|
  {
    if ds == [] then e else DrillChain(DrillElement(e, ds[0]), ds[1..])
  }

  /** Every element of `es` under the chain `ds`. */
  function ChainAll(es: seq<Element>, ds: seq<Drill>): (r: seq<Element>)
    ensures |r| == |es| && forall i :: 0 <= i < |es| ==> r[i] == DrillChain(es[i], ds)
  {
    seq(|es|, i requires 0 <= i < |es| => DrillChain(es[i], ds))
  }

  /** A chain of vertex drills acts on each vertex alone and leaves the edges. */
  lemma {:induction false} ExecuteChainPointwise(g: LogicalGraph, ds: seq<Drill>)
    requires forall j :: 0 <= j < |ds| ==> ds[j].drillVertex
    ensures ExecuteChain(g, ds) == LogicalGraph(ChainAll(g.vertices, ds), g.edges)
    decreases |ds|
  {
    if ds == [] {
      assert ChainAll(g.vertices, ds) == g.vertices;
    } else {
      var g1 := Execute(g, ds[0]);
      ExecuteChainPointwise(g1, ds[1..]);
      assert ChainAll(g1.vertices, ds[1..]) == ChainAll(g.vertices, ds);
    }
  }

  /** An element that has none of the chain's source keys comes through unchanged. */
  lemma {:induction false} DrillChainMissing(e: Element, ds: seq<Drill>)
    requires forall j :: 0 <= j < |ds| ==> ds[j].propertyKey !in e.properties
    ensures DrillChain(e, ds) == e
    decreases |ds|
  {
    if ds != [] {
      DrillMissingKey(e, ds[0]);
      DrillChainMissing(e, ds[1..]);
    }
  }

  /** The user's properties after the mixed chain. */
  function BirthChain(millis: i64): Properties
    requires 0 <= millis
  {
    var birth := (millis as int / 1000) as i64;
    var birth1 := (birth as int / 60) as i64;
    var birth2 := (birth1 as int / 60) as i64;
    map["birthMillis" := millis, "birth" := birth2, "birth__1" := birth, "birth__2" := birth1,
        "birthDays" := (birth2 as int / 24) as i64]
  }

  /** The values the mixed chain leaves on the four users of the drill input. */
  lemma BirthChainValues()
    ensures BirthChain(500000000000) == map["birthMillis" := 500000000000, "birth" := 138888,
      "birth__1" := 500000000, "birth__2" := 8333333, "birthDays" := 5787]
    ensures BirthChain(530000000000) == map["birthMillis" := 530000000000, "birth" := 147222,
      "birth__1" := 530000000, "birth__2" := 8833333, "birthDays" := 6134]
    ensures BirthChain(560000000000) == map["birthMillis" := 560000000000, "birth" := 155555,
      "birth__1" := 560000000, "birth__2" := 9333333, "birthDays" := 6481]
    ensures BirthChain(590000000000) == map["birthMillis" := 590000000000, "birth" := 163888,
      "birth__1" := 590000000, "birth__2" := 9833333, "birthDays" := 6828]
  {
  }

  lemma ChainOnForum(id: int, count: i64)
    ensures DrillChain(Forum(id, count), MIXED_CHAIN) == Forum(id, count)
  {
    DrillChainMissing(Forum(id, count), MIXED_CHAIN);
  }

  lemma ChainOnUser(id: int, millis: i64)
    requires 0 <= millis
    ensures DrillChain(User(id, millis), MIXED_CHAIN) == Element(id, "User", BirthChain(millis))
  {
    var birth := (millis as int / 1000) as i64;
    var birth1 := (birth as int / 60) as i64;
    var birth2 := (birth1 as int / 60) as i64;
    var p1 := map["birthMillis" := millis, "birth" := birth];
    var p2 := map["birthMillis" := millis, "birth" := birth1, "birth__1" := birth];
    var p3 := map["birthMillis" := millis, "birth" := birth2, "birth__1" := birth, "birth__2" := birth1];
    DrillNewKey(map["birthMillis" := millis], "birthMillis", "birth", DivideBy(1000));
    var e1 := DrillElement(User(id, millis), TO_SECONDS);
    assert e1 == Element(id, "User", p1);
    assert SuffixKey("birth", 1) == "birth__1";
    assert NextFreeSuffix("birth", p1) == 1;
    var e2 := DrillElement(e1, TO_MINUTES);
    assert e2 == Element(id, "User", p2);
    assert SuffixKey("birth", 2) == "birth__2";
    assert NextFreeSuffix("birth", p2) == 2;
    var e3 := DrillElement(e2, TO_MINUTES);
    assert e3 == Element(id, "User", p3);
    DrillNewKey(p3, "birth", "birthDays", DivideBy(24));
    var e4 := DrillElement(e3, TO_DAYS);
    assert e4 == Element(id, "User", BirthChain(millis));
    assert DrillChain(e4, []) == e4;
    assert DrillChain(e3, [TO_DAYS]) == e4;
    assert DrillChain(e2, [TO_MINUTES, TO_DAYS]) == e4 by {
      assert [TO_MINUTES, TO_DAYS][1..] == [TO_DAYS];
    }
    assert DrillChain(e1, [TO_MINUTES, TO_MINUTES, TO_DAYS]) == e4 by {
      assert [TO_MINUTES, TO_MINUTES, TO_DAYS][1..] == [TO_MINUTES, TO_DAYS];
    }
    assert MIXED_CHAIN[1..] == [TO_MINUTES, TO_MINUTES, TO_DAYS];
  }

  lemma ChainAllConcat(a: seq<Element>, b: seq<Element>, ds: seq<Drill>)
    ensures ChainAll(a + b, ds) == ChainAll(a, ds) + ChainAll(b, ds)
  {
  }

  lemma TwoUsersThroughChain(id1: int, millis1: i64, id2: int, millis2: i64)
    requires 0 <= millis1 && 0 <= millis2
    ensures ChainAll([User(id1, millis1), User(id2, millis2)], MIXED_CHAIN) ==
      [Element(id1, "User", BirthChain(millis1)), Element(id2, "User", BirthChain(millis2))]
  {
    ChainOnUser(id1, millis1);
    ChainOnUser(id2, millis2);
  }

  lemma UsersThroughChain()
    ensures ChainAll(Users(), MIXED_CHAIN) ==
      [ Element(2, "User", BirthChain(500000000000)), Element(3, "User", BirthChain(530000000000)),
        Element(4, "User", BirthChain(560000000000)), Element(5, "User", BirthChain(590000000000)) ]
  {
    var first := [User(2, 500000000000), User(3, 530000000000)];
    var second := [User(4, 560000000000), User(5, 590000000000)];
    assert Users() == first + second;
    TwoUsersThroughChain(2, 500000000000, 3, 530000000000);
    TwoUsersThroughChain(4, 560000000000, 5, 590000000000);
    ChainAllConcat(first, second, MIXED_CHAIN);
  }

  /** The vertices of the drill input, each through the mixed chain. */
  lemma MixedChainVertices()
    ensures ChainAll(DrillInput().vertices, MIXED_CHAIN) ==
      [ Forum(0, 1563145521), Forum(1, 451341564),
        Element(2, "User", BirthChain(500000000000)), Element(3, "User", BirthChain(530000000000)),
        Element(4, "User", BirthChain(560000000000)), Element(5, "User", BirthChain(590000000000)) ]
  {
    var forums := [Forum(0, 1563145521), Forum(1, 451341564)];
    ChainOnForum(0, 1563145521);
    ChainOnForum(1, 451341564);
    assert ChainAll(forums, MIXED_CHAIN) == forums;
    UsersThroughChain();
    ChainAllConcat(forums, Users(), MIXED_CHAIN);
  }

  /**
   * The mixed chain over the drill input: the forums, which lack the keys,
   * are untouched, each user ends with its BirthChain values (see
   * BirthChainValues), and the edges are not drilled.
   */
  lemma VertexRollUpMixedChain()
    ensures ExecuteChain(DrillInput(), MIXED_CHAIN) == LogicalGraph(
      [ Forum(0, 1563145521), Forum(1, 451341564),
        Element(2, "User", BirthChain(500000000000)), Element(3, "User", BirthChain(530000000000)),
        Element(4, "User", BirthChain(560000000000)), Element(5, "User", BirthChain(590000000000)) ],
      Edges())
  {
    ExecuteChainPointwise(DrillInput(), MIXED_CHAIN);
    MixedChainVertices();
  }

  function DrilledMember(id: int): Element {
    Element(id, "member", map["until" := 1550000000, "until__1" := 1550000000000])
  }

  lemma InPlaceOnMember(id: int)
    ensures DrillElement(Member(id), Drill("until", None, BY_1000, false)) == DrilledMember(id)
  {
    assert SuffixKey("until", 1) == "until__1";
    assert NextFreeSuffix("until", Member(id).properties) == 1;
  }

  /** The edge drill on the member edges, which all carry until. */
  lemma MembersDrilled(d: Drill)
    requires d == Drill("until", None, BY_1000, false)
    ensures DrillAll([Member(0), Member(1), Member(2), Member(3), Member(4)], d) ==
      [DrilledMember(0), DrilledMember(1), DrilledMember(2), DrilledMember(3), DrilledMember(4)]
  {
    var members := [Member(0), Member(1), Member(2), Member(3), Member(4)];
    forall i | 0 <= i < 5
      ensures DrillElement(members[i], d) == DrilledMember(i)
    {
      InPlaceOnMember(i);
    }
  }

  /** The edge drill on the knows edges, which carry no until. */
  lemma KnowsUntouched(d: Drill)
    requires d == Drill("until", None, BY_1000, false)
    ensures DrillAll([Knows(5), Knows(6), Knows(7), Knows(8), Knows(9)], d) ==
      [Knows(5), Knows(6), Knows(7), Knows(8), Knows(9)]
  {
    var knows := [Knows(5), Knows(6), Knows(7), Knows(8), Knows(9)];
    forall i | 0 <= i < 5
      ensures DrillElement(knows[i], d) == knows[i]
    {
      DrillMissingKey(knows[i], d);
    }
  }

  lemma DrillAllConcat(a: seq<Element>, b: seq<Element>, d: Drill)
    ensures DrillAll(a + b, d) == DrillAll(a, d) + DrillAll(b, d)
  {
  }

  /**
   * The in-place edge drill: every member edge's until is divided by 1000
   * with the old value under until__1; knows edges and all vertices are
   * unchanged.
   */
  lemma EdgeRollUpInPlace()
    ensures DrillUpEdge(DrillInput(), "until", BY_1000) == LogicalGraph(
      DrillInput().vertices,
      [DrilledMember(0), DrilledMember(1), DrilledMember(2), DrilledMember(3), DrilledMember(4),
       Knows(5), Knows(6), Knows(7), Knows(8), Knows(9)])
  {
    var d := Drill("until", None, BY_1000, false);
    var members := [Member(0), Member(1), Member(2), Member(3), Member(4)];
    var knows := [Knows(5), Knows(6), Knows(7), Knows(8), Knows(9)];
    assert Edges() == members + knows;
    MembersDrilled(d);
    KnowsUntouched(d);
    DrillAllConcat(members, knows, d);
  }
}
