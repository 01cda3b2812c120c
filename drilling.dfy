/**
 * Drilling: rewriting one property on every vertex (or every edge) of a
 * logical graph with a value function, either in place, keeping the old value
 * under the next free `key__n`, or into a new key.
 */
module Drilling {
  import opened JavaTypes
  import opened Wrappers
  import Decimal

  type Properties = map<string, i64>

  /** A vertex or an edge: its identity and label, and its long-valued properties. */
  datatype Element = Element(id: int, elementLabel: string, properties: Properties)

  datatype LogicalGraph = LogicalGraph(vertices: seq<Element>, edges: seq<Element>)

  type Divisor = d: i64 | d != 0 witness 1

  /** The drill drillFunction: DrillUpDivideBy, Java's truncating long division. */
  datatype DrillFunction = DivideBy(divisor: Divisor) {
    function Apply(v: i64): i64 {
      LongDiv(v, divisor)
    }
  }

  /** What DrillBuilder has been told before buildDrillUp. */
  datatype DrillBuilder = DrillBuilder(
    propertyKey: Option<string>,
    newPropertyKey: Option<string>,
    drillFunction: Option<DrillFunction>,
    drillVertex: bool)

  /** A configured drill; `newPropertyKey` absent means in place. */
  datatype Drill = Drill(propertyKey: string, newPropertyKey: Option<string>, drillFunction: DrillFunction, drillVertex: bool)

  datatype DrillError = MissingPropertyKey | MissingFunction

  /** buildDrillUp: a drill needs its property key and its function. */
  function BuildDrillUp(b: DrillBuilder): (r: Result<Drill, DrillError>)
    ensures b.propertyKey.None? ==> r == Failure(MissingPropertyKey)
    ensures r.Success? <==> b.propertyKey.Some? && b.drillFunction.Some?
    ensures r.Success? ==>
              && r.value.propertyKey == b.propertyKey.value && r.value.drillFunction == b.drillFunction.value
              && r.value.newPropertyKey == b.newPropertyKey && r.value.drillVertex == b.drillVertex
  {
    if b.propertyKey.None? then Failure(MissingPropertyKey)
    else if b.drillFunction.None? then Failure(MissingFunction)
    else Success(Drill(b.propertyKey.value, b.newPropertyKey, b.drillFunction.value, b.drillVertex))
  }

  /** `key__n`, where an earlier value of `key` is kept. */
  function SuffixKey(key: string, n: nat): string {
    key + "__" + Decimal.Digits(n)
  }

  lemma SuffixKeyInjective(key: string, m: nat, n: nat)
    requires SuffixKey(key, m) == SuffixKey(key, n)
    ensures m == n
  {
    var p := key + "__";
    assert SuffixKey(key, m)[|p|..] == Decimal.Digits(m);
    assert SuffixKey(key, n)[|p|..] == Decimal.Digits(n);
    Decimal.DigitsInjective(m, n);
  }

  /** The suffixed keys already tried when the search reaches `n`. */
  ghost function Tried(key: string, n: nat): set<string> {
    set m | 1 <= m < n :: SuffixKey(key, m)
  }

  /** The smallest n >= `from` whose `key__n` is free, provided all below `from` are taken. */
  function FreeSuffixFrom(key: string, props: Properties, from: nat): (n: nat)
    requires 1 <= from
    ensures from <= n && SuffixKey(key, n) !in props
    ensures forall m :: from <= m < n ==> SuffixKey(key, m) in props
    decreases |props.Keys - Tried(key, from)|
  {
    if SuffixKey(key, from) !in props then from
    else
      TriedGrows(key, props, from);
      FreeSuffixFrom(key, props, from + 1)
  }

  lemma TriedGrows(key: string, props: Properties, n: nat)
    requires 1 <= n && SuffixKey(key, n) in props
    ensures |props.Keys - Tried(key, n + 1)| < |props.Keys - Tried(key, n)|
  {
    var k := SuffixKey(key, n);
    assert Tried(key, n + 1) == Tried(key, n) + {k};
    if k in Tried(key, n) {
      var m :| 1 <= m < n && SuffixKey(key, m) == k;
      SuffixKeyInjective(key, m, n);
    }
    assert props.Keys - Tried(key, n + 1) == (props.Keys - Tried(key, n)) - {k};
  }

  /** The next free suffix: the smallest n >= 1 whose `key__n` is not yet a property. */
  function NextFreeSuffix(key: string, props: Properties): (n: nat)
    ensures 1 <= n && SuffixKey(key, n) !in props
    ensures forall m :: 1 <= m < n ==> SuffixKey(key, m) in props
  {
    FreeSuffixFrom(key, props, 1)
  }

  /**
   * One element under a drill from `key` into `target`: an element without
   * `key` is left alone; otherwise an existing value under `target` moves to
   * the next free `target__n` and `target` receives the function's result.
   */
  function DrillProperties(props: Properties, key: string, target: string, f: DrillFunction): (r: Properties)
    ensures key !in props ==> r == props
    ensures key in props ==> target in r && r[target] == f.Apply(props[key])
    ensures key in props && target !in props ==> r.Keys == props.Keys + {target}
    ensures key in props && target in props ==>
              var kept := SuffixKey(target, NextFreeSuffix(target, props));
              && kept !in props && r.Keys == props.Keys + {kept} && r[kept] == props[target]
    ensures forall k :: k in props && k != target ==> r[k] == props[k]
  {
    if key !in props then props
    else
      var kept := if target in props then props[SuffixKey(target, NextFreeSuffix(target, props)) := props[target]] else props;
      kept[target := f.Apply(props[key])]
  }

  function DrillElement(e: Element, d: Drill): (r: Element)
    ensures r.id == e.id && r.elementLabel == e.elementLabel
  {
    e.(properties := DrillProperties(e.properties, d.propertyKey, d.newPropertyKey.GetOr(d.propertyKey), d.drillFunction))
  }

  function DrillAll(es: seq<Element>, d: Drill): (r: seq<Element>)
    ensures |r| == |es|
    ensures forall i :: 0 <= i < |es| ==> r[i] == DrillElement(es[i], d)
  {
    seq(|es|, i requires 0 <= i < |es| => DrillElement(es[i], d))
  }

  /** Applying a drill to a graph: every vertex, or every edge, and nothing else. */
  function Execute(g: LogicalGraph, d: Drill): (r: LogicalGraph)
    ensures d.drillVertex ==> r.edges == g.edges
    ensures !d.drillVertex ==> r.vertices == g.vertices
    ensures |r.vertices| == |g.vertices| && |r.edges| == |g.edges|
  {
    if d.drillVertex then g.(vertices := DrillAll(g.vertices, d))
    else g.(edges := DrillAll(g.edges, d))
  }

  /** LogicalGraph.drillUpVertex(key, function): an in-place drill of the vertices. */
  function DrillUpVertex(g: LogicalGraph, key: string, f: DrillFunction): (r: LogicalGraph)
    ensures r.edges == g.edges && |r.vertices| == |g.vertices|
    ensures forall i :: 0 <= i < |g.vertices| ==>
              && r.vertices[i].id == g.vertices[i].id && r.vertices[i].elementLabel == g.vertices[i].elementLabel
              && r.vertices[i].properties == DrillProperties(g.vertices[i].properties, key, key, f)
  {
    Execute(g, Drill(key, None, f, true))
  }

  /** LogicalGraph.drillUpEdge(key, function): an in-place drill of the edges. */
  function DrillUpEdge(g: LogicalGraph, key: string, f: DrillFunction): (r: LogicalGraph)
    ensures r.vertices == g.vertices && |r.edges| == |g.edges|
    ensures forall i :: 0 <= i < |g.edges| ==>
              && r.edges[i].id == g.edges[i].id && r.edges[i].elementLabel == g.edges[i].elementLabel
              && r.edges[i].properties == DrillProperties(g.edges[i].properties, key, key, f)
  {
    Execute(g, Drill(key, None, f, false))
  }

  // ------------------------------------------------------------ properties

  /** A drill cannot be built without a property key, whether or not a function was set. */
  lemma BuildWithoutKeyFails(newKey: Option<string>, f: Option<DrillFunction>, vertex: bool)
    ensures BuildDrillUp(DrillBuilder(None, newKey, f, vertex)).Failure?
  {
  }

  /**
   * In place: the key holds the function's result, its old value sits under
   * the next free `key__n` (a key that did not exist before), and every
   * other property is as it was.
   */
  lemma DrillInPlace(props: Properties, key: string, f: DrillFunction)
    requires key in props
    ensures var r := DrillProperties(props, key, key, f);
      var n := NextFreeSuffix(key, props);
      && SuffixKey(key, n) !in props
      && r.Keys == props.Keys + {SuffixKey(key, n)}
      && r[key] == f.Apply(props[key])
      && r[SuffixKey(key, n)] == props[key]
      && forall k :: k in props && k != key ==> r[k] == props[k]
  {
    var n := NextFreeSuffix(key, props);
    assert SuffixKey(key, n) != key by {
      assert |SuffixKey(key, n)| > |key|;
    }
  }

  /**
   * Into a new key: the source property is untouched, the new key holds the
   * function's result, and no `__n` key appears.
   */
  lemma DrillNewKey(props: Properties, key: string, newKey: string, f: DrillFunction)
    requires key in props && newKey !in props
    ensures DrillProperties(props, key, newKey, f) == props[newKey := f.Apply(props[key])]
    ensures DrillProperties(props, key, newKey, f).Keys == props.Keys + {newKey}
    ensures DrillProperties(props, key, newKey, f)[key] == props[key]
  {
  }

  /** An element without the source key comes out unchanged; it is not an error. */
  lemma DrillMissingKey(e: Element, d: Drill)
    requires d.propertyKey !in e.properties
    ensures DrillElement(e, d) == e
  {
  }

  /**
   * A second in-place drill keeps the first backup under `key__1`, stores the
   * current value under `key__2`, and applies the function once more.
   */
  lemma DrillInPlaceTwice(props: Properties, key: string, f: DrillFunction)
    requires key in props && SuffixKey(key, 1) !in props && SuffixKey(key, 2) !in props
    ensures var once := DrillProperties(props, key, key, f);
      var twice := DrillProperties(once, key, key, f);
      && once[SuffixKey(key, 1)] == props[key]
      && twice[SuffixKey(key, 1)] == props[key]
      && twice[SuffixKey(key, 2)] == f.Apply(props[key])
      && twice[key] == f.Apply(f.Apply(props[key]))
  {
    var once := DrillProperties(props, key, key, f);
    assert NextFreeSuffix(key, props) == 1;
    DrillInPlace(props, key, f);
    DrillInPlace(once, key, f);
    var n := NextFreeSuffix(key, once);
    assert SuffixKey(key, 2) != SuffixKey(key, 1) by {
      assert Decimal.Digits(2) == "2" && Decimal.Digits(1) == "1";
      assert SuffixKey(key, 2)[|key| + 2] == '2';
    }
    assert |SuffixKey(key, 2)| > |key|;
    assert SuffixKey(key, 2) !in once;
    assert n == 2;
  }
}
