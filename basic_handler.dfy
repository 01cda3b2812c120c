/**
 * The column layout of the HBase entity handler: labels and properties of an
 * entity written into a `Put` and read back from a stored row.
 */
module BasicHandler {
  import opened JavaTypes
  import opened Wrappers
  import BigEndian
  import Utf8
  import opened TypeCodec

  /** The two column families, the ASCII bytes of "labels" and "properties"
      (their names live in the graph store, which is not part of this model;
      only their being different matters here). */
  const CF_LABELS: seq<byte> := [0x6C, 0x61, 0x62, 0x65, 0x6C, 0x73]
  const CF_PROPERTIES: seq<byte> := [0x70, 0x72, 0x6F, 0x70, 0x65, 0x72, 0x74, 0x69, 0x65, 0x73]

  /** One (family, qualifier, value) triple added to a `Put`. */
  datatype Cell = Cell(family: seq<byte>, qualifier: seq<byte>, value: seq<byte>)

  /** One entry of a family map of a stored row. */
  datatype Column = Column(qualifier: seq<byte>, value: seq<byte>)

  /** A pending write of one row: the cells added to it so far, in order. */
  class Put {
    const row: seq<byte>
    var cells: seq<Cell>

    constructor (row: seq<byte>)
      ensures this.row == row && cells == []
    {
      this.row := row;
      cells := [];
    }

    method Add(family: seq<byte>, qualifier: seq<byte>, value: seq<byte>)
      modifies this
      ensures cells == old(cells) + [Cell(family, qualifier, value)]
    {
      cells := cells + [Cell(family, qualifier, value)];
    }
  }

  /**
   * A stored row as the store hands it back: for each family, its columns in
   * the order the family map iterates them.
   */
  datatype RowResult = RowResult(families: map<seq<byte>, seq<Column>>)

  function FamilyMap(res: RowResult, family: seq<byte>): seq<Column> {
    if family in res.families then res.families[family] else []
  }

  /** The store's guarantee: a family map iterates by ascending qualifier. */
  predicate Ordered(cols: seq<Column>) {
    forall i, j :: 0 <= i < j < |cols| ==> BigEndian.LexLess(cols[i].qualifier, cols[j].qualifier)
  }

  /** The columns of a family, as a set. */
  function Entries(cols: seq<Column>): set<Column> {
    set c | c in cols
  }

  function ColumnsOf(cells: seq<Cell>): (cols: seq<Column>)
    ensures |cols| == |cells|
    ensures forall i :: 0 <= i < |cells| ==> cols[i] == Column(cells[i].qualifier, cells[i].value)
  {
    seq(|cells|, i requires 0 <= i < |cells| => Column(cells[i].qualifier, cells[i].value))
  }

  // ---------------------------------------------------------------- labels

  /** The qualifier of the i-th label: the bytes of the (wrapping) int counter. */
  function LabelQualifier(i: nat): seq<byte> {
    IntBytes(Wrap32(i))
  }

  /** The cells writeLabels adds for `labels`, in order. */
  function LabelCells(labels: seq<string>): (cells: seq<Cell>)
    ensures |cells| == |labels|
  {
    seq(|labels|, i requires 0 <= i < |labels| => Cell(CF_LABELS, LabelQualifier(i), Utf8.Encode(labels[i])))
  }

  /** The i-th label's qualifier is the four big-endian bytes of i (modulo 2^32). */
  lemma LabelQualifierIsIndex(i: nat)
    ensures LabelQualifier(i) == BigEndian.ToBytes(4, i % TWO_32)
    ensures |LabelQualifier(i)| == 4
  {
    BigEndian.Pow256Widths();
    var w := Wrap32(i);
    assert ToUnsigned32(w) as int == i % TWO_32;
  }

  lemma Wrap32Succ(x: int)
    ensures Wrap32(Wrap32(x) as int + 1) == Wrap32(x + 1)
  {
    var k := (Wrap32(x) as int - x) / TWO_32;
    assert Wrap32(x) as int == x + k * TWO_32;
    assert (Wrap32(x) as int + 1) % TWO_32 == (x + 1) % TWO_32;
  }

  /**
   * writeLabels: one labels-family column per label, the i-th label under the
   * qualifier i; nothing else in the put changes.
   */
  method WriteLabels(put: Put, labels: seq<string>) returns (r: Put)
    modifies put
    ensures r == put
    ensures put.cells == old(put.cells) + LabelCells(labels)
  {
    var internalLabelID: i32 := 0;
    for i := 0 to |labels|
      invariant internalLabelID == Wrap32(i)
      invariant put.cells == old(put.cells) + LabelCells(labels)[..i]
    {
      put.Add(CF_LABELS, IntBytes(internalLabelID), Utf8.Encode(labels[i]));
      Wrap32Succ(i);
      internalLabelID := Wrap32(internalLabelID as int + 1);
      assert LabelCells(labels)[..i + 1] == LabelCells(labels)[..i] + [LabelCells(labels)[i]];
    }
    return put;
  }

  /** The labels carried by a labels family, in its iteration order. */
  function LabelsOf(cols: seq<Column>): (labels: seq<string>)
    ensures |labels| == |cols|
  {
    seq(|cols|, i requires 0 <= i < |cols| => Utf8.Decode(cols[i].value))
  }

  /** readLabels: the labels-family values, decoded, in iteration order. */
  method ReadLabels(res: RowResult) returns (labels: seq<string>)
    ensures labels == LabelsOf(FamilyMap(res, CF_LABELS))
  {
    var cols := FamilyMap(res, CF_LABELS);
    labels := [];
    for i := 0 to |cols|
      invariant labels == LabelsOf(cols)[..i]
    {
      labels := labels + [Utf8.Decode(cols[i].value)];
      assert LabelsOf(cols)[..i + 1] == LabelsOf(cols)[..i] + [LabelsOf(cols)[i]];
    }
  }

  /**
   * The label columns come out in ascending qualifier order, so they are
   * exactly the family map a store ordering by qualifier gives back (as long
   * as the int counter does not wrap all the way round).
   */
  lemma LabelColumnsOrdered(labels: seq<string>)
    requires |labels| <= TWO_32
    ensures Ordered(ColumnsOf(LabelCells(labels)))
  {
    var cols := ColumnsOf(LabelCells(labels));
    forall i, j | 0 <= i < j < |cols|
      ensures BigEndian.LexLess(cols[i].qualifier, cols[j].qualifier)
    {
      assert cols[i].qualifier == LabelQualifier(i) && cols[j].qualifier == LabelQualifier(j);
      LabelQualifiersIncrease(i, j);
    }
  }

  lemma LabelQualifiersIncrease(i: nat, j: nat)
    requires i < j < TWO_32
    ensures BigEndian.LexLess(LabelQualifier(i), LabelQualifier(j))
  {
    BigEndian.Pow256Widths();
    LabelQualifierIsIndex(i);
    LabelQualifierIsIndex(j);
    assert i % TWO_32 == i && j % TWO_32 == j;
    BigEndian.ToBytesMonotone(4, i, j);
  }

  /** Two ordered families holding the same columns are the same sequence. */
  lemma {:induction false} OrderedUnique(xs: seq<Column>, ys: seq<Column>)
    requires Ordered(xs) && Ordered(ys)
    requires Entries(xs) == Entries(ys)
    ensures xs == ys
  {
    if xs == [] {
      EntriesEmpty(ys);
    } else {
      assert xs[0] in Entries(xs);
      assert ys != [];
      assert ys[0] in Entries(ys);
      var i :| 0 <= i < |xs| && xs[i] == ys[0];
      var j :| 0 <= j < |ys| && ys[j] == xs[0];
      if j > 0 {
        if i > 0 {
          BigEndian.LexTransitive(xs[0].qualifier, xs[i].qualifier, xs[0].qualifier);
        }
        BigEndian.LexIrreflexive(xs[0].qualifier);
        assert false;
      }
      OrderedTail(xs);
      OrderedTail(ys);
      OrderedUnique(xs[1..], ys[1..]);
      assert xs == [xs[0]] + xs[1..] && ys == [ys[0]] + ys[1..];
    }
  }

  lemma EntriesEmpty(ys: seq<Column>)
    ensures ys == [] <==> Entries(ys) == {}
  {
    if ys != [] {
      assert ys[0] in Entries(ys);
    }
  }

  lemma OrderedTail(xs: seq<Column>)
    requires Ordered(xs) && xs != []
    ensures Ordered(xs[1..])
    ensures Entries(xs[1..]) == Entries(xs) - {xs[0]}
  {
    forall k | 1 <= k < |xs|
      ensures xs[k] != xs[0]
    {
      BigEndian.LexIrreflexive(xs[0].qualifier);
    }
    assert xs == [xs[0]] + xs[1..];
  }

  /**
   * Reading back what writeLabels wrote: if the stored labels family holds
   * exactly the written columns and iterates them by qualifier, readLabels
   * returns the original labels in their original order.
   */
  lemma ReadLabelsAfterWriteLabels(labels: seq<string>, cols: seq<Column>)
    requires |labels| <= TWO_32
    requires Ordered(cols)
    requires Entries(cols) == Entries(ColumnsOf(LabelCells(labels)))
    ensures LabelsOf(cols) == labels
  {
    LabelColumnsOrdered(labels);
    OrderedUnique(cols, ColumnsOf(LabelCells(labels)));
    forall i | 0 <= i < |labels|
      ensures LabelsOf(cols)[i] == labels[i]
    {
      Utf8.DecodeEncode(labels[i]);
    }
  }

  // ------------------------------------------------------------ properties

  /** How many of `keys` are written before the first value that cannot be encoded. */
  function FirstUnsupported(keys: seq<string>, props: map<string, Value>): (n: nat)
    requires forall i :: 0 <= i < |keys| ==> keys[i] in props
    ensures n <= |keys|
    ensures forall i :: 0 <= i < n ==> Supported(props[keys[i]])
    ensures n < |keys| ==> !Supported(props[keys[n]])
  {
    if keys == [] then 0
    else if !Supported(props[keys[0]]) then 0
    else 1 + FirstUnsupported(keys[1..], props)
  }

  /** The properties-family cell of one property. */
  function PropertyCell(key: string, v: Value): Cell
    requires Supported(v)
  {
    Cell(CF_PROPERTIES, Utf8.Encode(key), Encode(v).value)
  }

  /** The cells writeProperties adds before it stops (at the end, or at the
      first value it cannot encode). */
  function PropertyCells(keys: seq<string>, props: map<string, Value>): (cells: seq<Cell>)
    requires forall i :: 0 <= i < |keys| ==> keys[i] in props
    ensures |cells| == FirstUnsupported(keys, props)
  {
    var n := FirstUnsupported(keys, props);
    seq(n, i requires 0 <= i < n => PropertyCell(keys[i], props[keys[i]]))
  }

  /**
   * writeProperties: one properties-family column per key, holding the encoded
   * value, in the entity's key order. A value of an unsupported class aborts
   * with the columns for the earlier keys already added.
   */
  method WriteProperties(put: Put, keys: seq<string>, props: map<string, Value>)
    returns (r: Result<Put, CodecError>)
    requires forall i :: 0 <= i < |keys| ==> keys[i] in props
    modifies put
    ensures put.cells == old(put.cells) + PropertyCells(keys, props)
    ensures r.Success? <==> FirstUnsupported(keys, props) == |keys|
    ensures r.Success? ==> r.value == put
    ensures r.Failure? ==> r.error == UnsupportedClass(ClassName(props[keys[FirstUnsupported(keys, props)]]))
  {
    var n := FirstUnsupported(keys, props);
    for i := 0 to |keys|
      invariant i <= n
      invariant put.cells == old(put.cells) + PropertyCells(keys, props)[..i]
    {
      var encoded := Encode(props[keys[i]]);
      if encoded.Failure? {
        assert i == n;
        return Failure(encoded.error);
      }
      put.Add(CF_PROPERTIES, Utf8.Encode(keys[i]), encoded.value);
      assert PropertyCells(keys, props)[..i + 1] == PropertyCells(keys, props)[..i] + [PropertyCells(keys, props)[i]];
    }
    return Success(put);
  }

  /** The key a stored properties column names. */
  function KeyOf(c: Column): string {
    Utf8.Decode(c.qualifier)
  }

  /**
   * The map readProperties builds from a properties family, entry by entry in
   * iteration order; the first value that does not decode aborts the read.
   */
  function PropertiesOf(cols: seq<Column>): (r: Result<map<string, Decoded>, CodecError>)
    ensures r.Success? <==> forall i :: 0 <= i < |cols| ==> Decode(cols[i].value).Success?
    ensures r.Success? ==> forall i :: 0 <= i < |cols| ==> KeyOf(cols[i]) in r.value
  {
    if cols == [] then Success(map[])
    else
      var last := cols[|cols| - 1];
      var m :- PropertiesOf(cols[..|cols| - 1]);
      var d :- Decode(last.value);
      assert cols == cols[..|cols| - 1] + [last];
      Success(m[KeyOf(last) := d])
  }

  lemma PropertiesOfSnoc(init: seq<Column>, c: Column)
    ensures PropertiesOf(init + [c]) ==
      if PropertiesOf(init).Failure? then PropertiesOf(init)
      else if Decode(c.value).Failure? then Failure(Decode(c.value).error)
      else Success(PropertiesOf(init).value[KeyOf(c) := Decode(c.value).value])
  {
    assert (init + [c])[..|init|] == init;
  }

  /** Once a prefix fails to read, the whole family fails with the same error. */
  lemma {:induction false} PropertiesOfFailure(cols: seq<Column>, k: nat)
    requires k <= |cols| && PropertiesOf(cols[..k]).Failure?
    ensures PropertiesOf(cols) == PropertiesOf(cols[..k])
    decreases |cols| - k
  {
    if k < |cols| {
      PropertiesOfSnoc(cols[..k], cols[k]);
      assert cols[..k + 1] == cols[..k] + [cols[k]];
      PropertiesOfFailure(cols, k + 1);
    } else {
      assert cols[..k] == cols;
    }
  }

  /** readProperties: decode every column of the properties family into a map. */
  method ReadProperties(res: RowResult) returns (r: Result<map<string, Decoded>, CodecError>)
    ensures r == PropertiesOf(FamilyMap(res, CF_PROPERTIES))
  {
    var cols := FamilyMap(res, CF_PROPERTIES);
    var properties: map<string, Decoded> := map[];
    for i := 0 to |cols|
      invariant PropertiesOf(cols[..i]) == Success(properties)
    {
      var decoded := Decode(cols[i].value);
      PropertiesOfSnoc(cols[..i], cols[i]);
      assert cols[..i + 1] == cols[..i] + [cols[i]];
      if decoded.Failure? {
        PropertiesOfFailure(cols, i + 1);
        return Failure(decoded.error);
      }
      properties := properties[KeyOf(cols[i]) := decoded.value];
    }
    assert cols[..|cols|] == cols;
    return Success(properties);
  }

  /** Every column of `cols` is the written column of some property in `props`. */
  ghost predicate WrittenFrom(cols: seq<Column>, props: map<string, Value>) {
    forall i :: 0 <= i < |cols| ==> WrittenColumn(cols[i], props)
  }

  ghost predicate WrittenColumn(c: Column, props: map<string, Value>) {
    var k := KeyOf(c);
    k in props && Supported(props[k]) && c == Column(Utf8.Encode(k), Encode(props[k]).value)
  }

  lemma {:induction false} PropertiesOfWritten(cols: seq<Column>, props: map<string, Value>)
    requires WrittenFrom(cols, props)
    ensures PropertiesOf(cols).Success?
    ensures forall k :: k in PropertiesOf(cols).value ==> k in props && PropertiesOf(cols).value[k] == Present(props[k])
  {
    if cols != [] {
      var init, last := cols[..|cols| - 1], cols[|cols| - 1];
      assert WrittenFrom(init, props) by {
        forall i | 0 <= i < |init| ensures init[i] == cols[i] { }
      }
      PropertiesOfWritten(init, props);
      assert WrittenColumn(last, props);
      DecodeEncode(props[KeyOf(last)]);
    }
  }

  /** Every column writeProperties wrote names its own key and value. */
  lemma PropertyColumnsWritten(keys: seq<string>, props: map<string, Value>)
    requires forall k :: k in props ==> Supported(props[k])
    requires forall i :: 0 <= i < |keys| ==> keys[i] in props
    ensures FirstUnsupported(keys, props) == |keys|
    ensures WrittenFrom(ColumnsOf(PropertyCells(keys, props)), props)
    ensures forall j :: 0 <= j < |keys| ==> KeyOf(ColumnsOf(PropertyCells(keys, props))[j]) == keys[j]
  {
    var written := ColumnsOf(PropertyCells(keys, props));
    forall j | 0 <= j < |written|
      ensures WrittenColumn(written[j], props) && KeyOf(written[j]) == keys[j]
    {
      Utf8.DecodeEncode(keys[j]);
    }
  }

  /** Columns holding exactly the written entries are themselves written columns. */
  lemma ColumnsWrittenFrom(keys: seq<string>, props: map<string, Value>, cols: seq<Column>)
    requires forall k :: k in props ==> Supported(props[k])
    requires forall i :: 0 <= i < |keys| ==> keys[i] in props
    requires Entries(cols) == Entries(ColumnsOf(PropertyCells(keys, props)))
    ensures WrittenFrom(cols, props)
  {
    var written := ColumnsOf(PropertyCells(keys, props));
    PropertyColumnsWritten(keys, props);
    forall i | 0 <= i < |cols|
      ensures WrittenColumn(cols[i], props)
    {
      assert cols[i] in Entries(written);
    }
  }

  /** Every written key names some column of the family, so it is read back. */
  lemma ReadCoversKeys(keys: seq<string>, props: map<string, Value>, cols: seq<Column>)
    requires forall k :: k in props ==> Supported(props[k])
    requires forall k :: k in props <==> k in keys
    requires Entries(cols) == Entries(ColumnsOf(PropertyCells(keys, props)))
    requires PropertiesOf(cols).Success?
    ensures forall k :: k in props ==> k in PropertiesOf(cols).value
  {
    var written := ColumnsOf(PropertyCells(keys, props));
    PropertyColumnsWritten(keys, props);
    forall k | k in props
      ensures k in PropertiesOf(cols).value
    {
      var j :| 0 <= j < |keys| && keys[j] == k;
      assert written[j] in Entries(cols);
    }
  }

  /**
   * Reading back what writeProperties wrote: when every value is supported
   * and the stored properties family holds exactly the written columns (in
   * any order), readProperties gives back the entity's key-to-value map.
   */
  lemma ReadPropertiesAfterWriteProperties(keys: seq<string>, props: map<string, Value>, cols: seq<Column>)
    requires forall k :: k in props ==> Supported(props[k])
    requires forall k :: k in props <==> k in keys
    requires Entries(cols) == Entries(ColumnsOf(PropertyCells(keys, props)))
    ensures PropertiesOf(cols) == Success(map k | k in props :: Present(props[k]))
  {
    ColumnsWrittenFrom(keys, props, cols);
    PropertiesOfWritten(cols, props);
    ReadCoversKeys(keys, props, cols);
    var m := PropertiesOf(cols).value;
    var expected := map k | k in props :: Present(props[k]);
    assert m.Keys == expected.Keys;
    assert m == expected;
  }
}
