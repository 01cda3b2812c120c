# Gradoop core, modelled in Dafny

This project models the core of Gradoop, a property-graph system on a
distributed store. In Gradoop, many logical graphs share one copy of each
vertex and edge. The model covers:

- **The HBase typed-value codec (`BasicHandler`).**
  - A property value is stored as a one-byte type tag followed by its big-endian bytes.
  - Boolean is `0x00`, Integer `0x01`, Long `0x02`, Float `0x03`, Double `0x04` and String `0x05`.
  - Labels are written as columns of the `labels` family, with the 4-byte big-endian index as qualifier.
  - Properties are written to the `properties` family, keyed by the UTF-8 name.
  - Reading turns those columns back into a label list and a property map.
  - `Put` is a class whose cell list the write methods extend in place. A row `Result` is a value: for each family, its columns in the store's ascending qualifier order.
- **`GradoopIds.min`** over a caller-supplied `compareTo`.
- **`DefaultEdge`**: the constructor, getters, `equals` and `hashCode`. This includes Java's `Long.hashCode` and 32-bit `31 * h + h'`.
- **Drill-up**, the property roll-up exercised by the drilling tests.
  - A drill applies a value function to one property of every vertex (or every edge).
  - It writes the result in place or into a new key.
  - An old value that would be overwritten moves to the next free `key__n`.
  - The long division is Java's, which truncates toward zero.
- **The graph-collection membership algebra**: overlap and split-by over a store of elements. Each element carries the set of graph ids it belongs to.
- **`SplitByModulo`**, the classifier the split-by test uses, written step by step as in the test.

Java's fixed-width integers are explicit: `i32`/`i64` newtypes, the
`Wrap32` two's-complement `int` overflow, and `JavaDiv`/`JavaRem`
truncating division.

## Model

Source paths are relative to the repository root.

| member | source | states |
|---|---|---|
| TypeCodec.Encode | gradoop-core/src/main/java/org/gradoop/core/storage/hbase/BasicHandler.java:132-158 | Encoding fails exactly for a value outside the six supported kinds, with `UnsupportedClass` naming its class. Otherwise the first byte is a tag in 0x00..0x05, and a fixed-width kind has exactly 1 + width bytes. |
| TypeCodec.Decode | gradoop-core/src/main/java/org/gradoop/core/storage/hbase/BasicHandler.java:160-189 | An empty buffer decodes to absent (Java `null`), and only the empty buffer does. A first byte above 0x05 is an unsupported type code. A boolean fails exactly when its payload is not one byte. An integer, long, float or double fails exactly when its payload is shorter than its width. A string always decodes. Any decoded value is supported, and its type tag is the buffer's first byte. |
| TypeCodec.DecodeEncode | gradoop-core/src/main/java/org/gradoop/core/storage/hbase/BasicHandler.java:132-189 | For every supported value, decoding its encoding gives the value back. Float and double are kept as raw bit patterns. |
| TypeCodec.EncodeDecodeNumeric | gradoop-core/src/main/java/org/gradoop/core/storage/hbase/BasicHandler.java:169-180 | A decodable integer, long, float or double buffer re-encodes to its tag and leading payload bytes, and so to the whole buffer when the payload has exactly the kind's width. |
| TypeCodec.DecodeReadsLeadingBytes | gradoop-core/src/main/java/org/gradoop/core/storage/hbase/BasicHandler.java:164-180 | An integer, long, float or double payload longer than its width decodes exactly as its leading width bytes do. |
| TypeCodec.DecodeIntIgnoresTrailingByte | gradoop-core/src/main/java/org/gradoop/core/storage/hbase/BasicHandler.java:164-171 | An integer buffer `01 00 00 00 01 FF` decodes to 1: the trailing byte is ignored. |
| TypeCodec.DecodeBoolean | gradoop-core/src/main/java/org/gradoop/core/storage/hbase/BasicHandler.java:166-168 | A boolean payload byte decodes to true exactly when it is non-zero. |
| TypeCodec.GetTypeAsWrittenRefusesFloat | gradoop-core/src/main/java/org/gradoop/core/storage/hbase/BasicHandler.java:84-103 | For a Float, getType as written fails while encoding succeeds with tag 0x03. For every other value, getType as written equals the corrected getType. |
| TypeCodec.GetTypeAsWritten | gradoop-core/src/main/java/org/gradoop/core/storage/hbase/BasicHandler.java:84-103 | getType as written succeeds exactly for the supported kinds other than Float, and otherwise raises `UnsupportedClass` naming the class. |
| TypeCodec.GetType | gradoop-core/src/main/java/org/gradoop/core/storage/hbase/BasicHandler.java:84-103 | The corrected getType succeeds exactly for supported values, and otherwise raises `UnsupportedClass`. |
| TypeCodec.GetTypeIsEncodedTag | gradoop-core/src/main/java/org/gradoop/core/storage/hbase/BasicHandler.java:84-103 | The corrected getType succeeds exactly when encoding does, returns the encoding's first byte, and fails with the same error. |
| BigEndian.FromToBytes | gradoop-core/src/main/java/org/gradoop/core/storage/hbase/BasicHandler.java:140-144 | Reading back the big-endian bytes of a number below 256^w gives the number. |
| BigEndian.ToFromBytes | gradoop-core/src/main/java/org/gradoop/core/storage/hbase/BasicHandler.java:169-174 | Writing the number read from a byte sequence gives that sequence back. |
| BigEndian.ToBytesMonotone | gradoop-core/src/main/java/org/gradoop/core/storage/hbase/BasicHandler.java:36 | At a fixed width, the big-endian encodings of m and n compare in unsigned lexicographic order exactly when m < n. |
| Utf8.DecodeEncode | gradoop-core/src/main/java/org/gradoop/core/storage/hbase/BasicHandler.java:32-59 | Decoding the UTF-8 encoding of any string of Unicode scalar values gives the string back. |
| Utf8.EncodeInjective | gradoop-core/src/main/java/org/gradoop/core/storage/hbase/BasicHandler.java:45 | Distinct property names give distinct qualifiers. |
| BasicHandler.Put.constructor | gradoop-core/src/main/java/org/gradoop/core/storage/hbase/BasicHandler.java:33 | A new Put for a row has no cells. |
| BasicHandler.Put.Add | gradoop-core/src/main/java/org/gradoop/core/storage/hbase/BasicHandler.java:36-37 | Adding a cell appends exactly that cell. |
| BasicHandler.WriteLabels | gradoop-core/src/main/java/org/gradoop/core/storage/hbase/BasicHandler.java:32-40 | Returns the same Put. It appends one labels-family cell per label, in order: the i-th has qualifier `Bytes.toBytes(i)` from a wrapping int counter and value UTF-8 of the label. Nothing else is changed. |
| BasicHandler.LabelQualifierIsIndex | gradoop-core/src/main/java/org/gradoop/core/storage/hbase/BasicHandler.java:34-36 | The i-th qualifier is the 4-byte big-endian encoding of i mod 2^32. |
| BasicHandler.LabelQualifiersIncrease | gradoop-core/src/main/java/org/gradoop/core/storage/hbase/BasicHandler.java:34-36 | For i < j < 2^32, qualifier i sorts strictly before qualifier j. |
| BasicHandler.LabelColumnsOrdered | gradoop-core/src/main/java/org/gradoop/core/storage/hbase/BasicHandler.java:32-40 | Up to 2^32 labels, the written columns are already in the store's ascending qualifier order. |
| BasicHandler.ReadLabels | gradoop-core/src/main/java/org/gradoop/core/storage/hbase/BasicHandler.java:51-59 | Returns the UTF-8 decoding of every labels-family value, in the family's column order. |
| BasicHandler.ReadLabelsAfterWriteLabels | gradoop-core/src/main/java/org/gradoop/core/storage/hbase/BasicHandler.java:32-59 | A family holding exactly the written label columns, in ascending qualifier order, reads back as the original label list. |
| BasicHandler.OrderedUnique | gradoop-core/src/main/java/org/gradoop/core/storage/hbase/BasicHandler.java:54-55 | Two strictly ordered column lists with the same entries are equal, so the family's order is determined by its contents. |
| BasicHandler.FirstUnsupported | gradoop-core/src/main/java/org/gradoop/core/storage/hbase/BasicHandler.java:44-46 | Gives the position of the first key whose value cannot be encoded, or the number of keys. Every earlier value is supported. |
| BasicHandler.WriteProperties | gradoop-core/src/main/java/org/gradoop/core/storage/hbase/BasicHandler.java:42-49 | Appends one properties-family cell per key, up to the first unsupported value. Succeeds, returning the same Put, exactly when every value is supported; otherwise fails with that value's `UnsupportedClass`. The cells added before the failure stay. |
| BasicHandler.PropertiesOf | gradoop-core/src/main/java/org/gradoop/core/storage/hbase/BasicHandler.java:61-72 | Reading succeeds exactly when every column decodes. Every column's key is then in the map. |
| BasicHandler.PropertiesOfFailure | gradoop-core/src/main/java/org/gradoop/core/storage/hbase/BasicHandler.java:67-69 | The first column that fails to decode aborts the whole read with its error. |
| BasicHandler.ReadProperties | gradoop-core/src/main/java/org/gradoop/core/storage/hbase/BasicHandler.java:61-72 | The loop computes PropertiesOf over the properties family. |
| BasicHandler.PropertyColumnsWritten | gradoop-core/src/main/java/org/gradoop/core/storage/hbase/BasicHandler.java:42-49 | With all values supported, every key is written, and the j-th column is keyed by the j-th key and holds that key's encoded value. |
| BasicHandler.ReadPropertiesAfterWriteProperties | gradoop-core/src/main/java/org/gradoop/core/storage/hbase/BasicHandler.java:42-72 | A family holding exactly the written property columns, in any order, reads back as the original key to value map. |
| GradoopIds.Min | gradoop-core/src/main/java/org/gradoop/model/impl/id/GradoopIds.java:33-40 | Returns one of its arguments. It is the first on a compare result of -1 and the second on any result other than 0 and -1. |
| GradoopIds.MinTieBreak | gradoop-core/src/main/java/org/gradoop/model/impl/id/GradoopIds.java:25-36 | Identifiers that compare equal give back the first one. |
| GradoopIds.MinIsLeastForThreeWay | gradoop-core/src/main/java/org/gradoop/model/impl/id/GradoopIds.java:25-40 | For an antisymmetric compareTo answering only -1, 0 or 1, the result is at most both arguments. |
| GradoopIds.MinAsWrittenMissesOtherNegatives | gradoop-core/src/main/java/org/gradoop/model/impl/id/GradoopIds.java:37 | Comparing by difference, min(1, 5) is 5 as written and 1 when corrected. |
| GradoopIds.MinBySign | gradoop-core/src/main/java/org/gradoop/model/impl/id/GradoopIds.java:33-40 | The corrected min returns the first argument when compareTo is at most 0, and the second otherwise. |
| GradoopIds.MinBySignIsLeast | gradoop-core/src/main/java/org/gradoop/model/impl/id/GradoopIds.java:25-31 | For any antisymmetric compareTo, the corrected min is at most both arguments. |
| GradoopIds.MinAgreesOnThreeWay | gradoop-core/src/main/java/org/gradoop/model/impl/id/GradoopIds.java:33-40 | The written and corrected min agree whenever compareTo answers -1, 0 or 1. |
| DefaultEdge.NewEdge | gradoop-core/src/main/java/org/gradoop/model/impl/DefaultEdge.java:25-45 | getIndex returns the index given to the constructor and getOtherID the otherID. Label and properties are kept. |
| DefaultEdge.Equals | gradoop-core/src/main/java/org/gradoop/model/impl/DefaultEdge.java:54-67 | An edge is equal only to an edge with the same index and other id, and every edge is equal to itself. EqualsIsFieldEquality states the exact condition. |
| DefaultEdge.EqualsIsFieldEquality | gradoop-core/src/main/java/org/gradoop/model/impl/DefaultEdge.java:54-67 | Two edges are equal exactly when index, otherID and label are equal. Properties play no part. |
| DefaultEdge.EqualsRefusesOthers | gradoop-core/src/main/java/org/gradoop/model/impl/DefaultEdge.java:59-61 | An edge equals neither null nor an object of another class. |
| DefaultEdge.EqualsReflexive | gradoop-core/src/main/java/org/gradoop/model/impl/DefaultEdge.java:56-58 | Every edge equals itself. |
| DefaultEdge.EqualsSymmetric | gradoop-core/src/main/java/org/gradoop/model/impl/DefaultEdge.java:63-66 | equals is symmetric. |
| DefaultEdge.EqualsTransitive | gradoop-core/src/main/java/org/gradoop/model/impl/DefaultEdge.java:63-66 | equals is transitive. |
| DefaultEdge.LongHash | gradoop-core/src/main/java/org/gradoop/model/impl/DefaultEdge.java:72-77 | `Long.hashCode`, with Java's `^` as bitwise exclusive or: a long in int range hashes to itself when non-negative and to -x - 1 when negative. |
| DefaultEdge.HashCode | gradoop-core/src/main/java/org/gradoop/model/impl/DefaultEdge.java:72-77 | `31 * hash(otherID) + hash(id)` wrapped to 32 bits. For non-negative ids below 2^24 it is exactly `31 * otherID + id`. HashCodeAgreesWithEquals ties it to Equals. |
| DefaultEdge.HashCodeAgreesWithEquals | gradoop-core/src/main/java/org/gradoop/model/impl/DefaultEdge.java:72-77 | Equal edges have equal hash codes. |
| Drilling.BuildDrillUp | gradoop-flink/src/test/java/org/gradoop/flink/model/impl/operators/drilling/DrillTest.java:32-54 | Building fails without a property key, and succeeds exactly when both the key and the function are set, carrying over what was set. |
| Drilling.BuildWithoutKeyFails | gradoop-flink/src/test/java/org/gradoop/flink/model/impl/operators/drilling/DrillTest.java:32-54 | Without a property key, building fails whether or not a function was set. |
| Drilling.NextFreeSuffix | gradoop-flink/src/test/java/org/gradoop/flink/model/impl/operators/drilling/DrillTest.java:126-159 | Returns the smallest n >= 1 whose `key__n` is not yet a property. |
| Drilling.DrillProperties | gradoop-flink/src/test/java/org/gradoop/flink/model/impl/operators/drilling/DrillTest.java:56-159 | Without the source key the properties are unchanged. With it, the target holds f(source). A new target key is simply added. An existing target's value moves to the next free `target__n`, which was not a key before. Every other property is kept. |
| Drilling.DrillElement | gradoop-flink/src/test/java/org/gradoop/flink/model/impl/operators/drilling/DrillTest.java:62-79 | A drill keeps each element's id and label. |
| Drilling.DrillAll | gradoop-flink/src/test/java/org/gradoop/flink/model/impl/operators/drilling/DrillTest.java:62-79 | The drilled list has one element per input, each the drill of the element at the same position. |
| Drilling.Execute | gradoop-flink/src/test/java/org/gradoop/flink/model/impl/operators/drilling/DrillTest.java:56-86 | A vertex drill leaves every edge unchanged and an edge drill every vertex. Both keep the element counts. |
| Drilling.DrillUpVertex | gradoop-flink/src/test/java/org/gradoop/flink/model/impl/operators/drilling/DrillTest.java:80-83 | `drillUpVertex(key, f)` keeps the edges and each vertex's id and label, and rewrites each vertex's properties in place with DrillProperties. |
| Drilling.DrillUpEdge | gradoop-flink/src/test/java/org/gradoop/flink/model/impl/operators/drilling/DrillTest.java:289-292 | `drillUpEdge(key, f)` keeps the vertices and each edge's id and label, and rewrites each edge's properties in place with DrillProperties. |
| Drilling.DrillInPlace | gradoop-flink/src/test/java/org/gradoop/flink/model/impl/operators/drilling/DrillTest.java:56-86 | In place, the key holds f(old value) and the old value moves to the next free `key__n`, a key that did not exist before. No other property changes. |
| Drilling.DrillNewKey | gradoop-flink/src/test/java/org/gradoop/flink/model/impl/operators/drilling/DrillTest.java:88-124 | Into an absent new key, the source is untouched and the new key holds f(source). No `__n` key appears. |
| Drilling.DrillMissingKey | gradoop-flink/src/test/java/org/gradoop/flink/model/impl/operators/drilling/DrillTest.java:64-78 | An element without the source key comes out unchanged. |
| Drilling.DrillInPlaceTwice | gradoop-flink/src/test/java/org/gradoop/flink/model/impl/operators/drilling/DrillTest.java:126-159 | A second in-place drill keeps `key__1`, stores the once-drilled value under `key__2`, and applies f twice to the key. |
| DrillScenarios.VertexRollUpInPlace | gradoop-flink/src/test/java/org/gradoop/flink/model/impl/operators/drilling/DrillTest.java:56-86 | On the test graph, gives memberCount 1563145 with memberCount__1 1563145521, and 451341 with 451341564. Users and edges are unchanged. |
| DrillScenarios.VertexRollUpNewKey | gradoop-flink/src/test/java/org/gradoop/flink/model/impl/operators/drilling/DrillTest.java:88-124 | Into memberCount_in_K: 1563145 and 451341, with memberCount kept. |
| DrillScenarios.VertexRollUpChained | gradoop-flink/src/test/java/org/gradoop/flink/model/impl/operators/drilling/DrillTest.java:126-159 | Two in-place drills: memberCount 1563, __1 1563145521, __2 1563145, and likewise for the second forum. |
| DrillScenarios.VertexRollUpNewKeyChained | gradoop-flink/src/test/java/org/gradoop/flink/model/impl/operators/drilling/DrillTest.java:161-204 | memberCount_in_M is computed from memberCount_in_K: 1563 and 451. |
| DrillScenarios.ExecuteChainPointwise | gradoop-flink/src/test/java/org/gradoop/flink/model/impl/operators/drilling/DrillTest.java:235-256 | A chain of vertex drills acts on each vertex alone and leaves the edges. |
| DrillScenarios.DrillChainMissing | gradoop-flink/src/test/java/org/gradoop/flink/model/impl/operators/drilling/DrillTest.java:206-261 | A vertex with none of the chain's source keys comes through the chain unchanged. |
| DrillScenarios.ChainOnUser | gradoop-flink/src/test/java/org/gradoop/flink/model/impl/operators/drilling/DrillTest.java:235-256 | A user after the mixed chain has birth, birth__1, birth__2 and birthDays as BirthChain computes them. |
| DrillScenarios.BirthChainValues | gradoop-flink/src/test/java/org/gradoop/flink/model/impl/operators/drilling/DrillTest.java:213-221 | The four users end with the expected values, e.g. birth 138888, birth__1 500000000, birth__2 8333333, birthDays 5787. |
| DrillScenarios.VertexRollUpMixedChain | gradoop-flink/src/test/java/org/gradoop/flink/model/impl/operators/drilling/DrillTest.java:206-261 | The mixed chain on the test graph: forums untouched, users with their BirthChain values, edges unchanged. |
| DrillScenarios.EdgeRollUpInPlace | gradoop-flink/src/test/java/org/gradoop/flink/model/impl/operators/drilling/DrillTest.java:265-295 | The edge drill gives every member edge until 1550000000 with until__1 1550000000000. Knows edges and all vertices are unchanged. |
| GraphCollections.Overlap | gradoop-flink/src/test/java/org/gradoop/model/impl/operators/logicalgraph/binary/graphOverlapTest.java:55-56 | Only memberships change. A vertex in both graphs gains g3, and an edge gains it when it and both endpoints are in both graphs. Every other element is unchanged. |
| GraphCollections.OverlapVertexIds | gradoop-flink/src/test/java/org/gradoop/model/impl/operators/logicalgraph/binary/graphOverlapTest.java:61-95 | A fresh g3 holds exactly the intersection of the two vertex sets. |
| GraphCollections.OverlapEdgeIds | gradoop-flink/src/test/java/org/gradoop/model/impl/operators/logicalgraph/binary/graphOverlapTest.java:133-167 | g3's edges are the common edges whose endpoints are both common vertices. |
| GraphCollections.OverlapEdgeIdsValid | gradoop-flink/src/test/java/org/gradoop/model/impl/operators/logicalgraph/binary/graphOverlapTest.java:61-95 | Without dangling edges, g3's edges are exactly the intersection of the two edge sets. |
| GraphCollections.OverlapSymmetric | gradoop-flink/src/test/java/org/gradoop/model/impl/operators/logicalgraph/binary/graphOverlapTest.java:61-95 | overlap(g1, g2) and overlap(g2, g1) produce the same store. |
| GraphCollections.OverlapSelf | gradoop-flink/src/test/java/org/gradoop/model/impl/operators/logicalgraph/binary/graphOverlapTest.java:43-59 | Overlapping a graph with itself yields all its vertices and edges. |
| GraphCollections.OverlapDisjoint | gradoop-flink/src/test/java/org/gradoop/model/impl/operators/logicalgraph/binary/graphOverlapTest.java:97-131 | Graphs without a common vertex overlap in an empty graph. |
| GraphCollections.OverlapKeepsOtherGraphs | gradoop-flink/src/test/java/org/gradoop/model/impl/operators/logicalgraph/binary/graphOverlapTest.java:169-207 | Every graph other than g3 keeps its vertex and edge sets. |
| GraphCollections.OverlapGainsOneGraph | gradoop-flink/src/test/java/org/gradoop/model/impl/operators/logicalgraph/binary/graphOverlapTest.java:169-207 | A selected vertex keeps all its graph ids and gains exactly one. |
| GraphCollections.OverlapEdgeGainsOneGraph | gradoop-flink/src/test/java/org/gradoop/model/impl/operators/logicalgraph/binary/graphOverlapTest.java:169-207 | A selected edge keeps all its graph ids and gains exactly one. |
| GraphCollections.OverlapPreservesValid | gradoop-flink/src/test/java/org/gradoop/model/impl/operators/logicalgraph/binary/graphOverlapTest.java:55-56 | Overlap creates no dangling edge. |
| GraphCollections.SplitBy | gradoop-flink/src/test/java/org/gradoop/model/impl/operators/auxiliary/graphOverlapSplitByTest.java:32-35 | Only memberships grow. A vertex of g joins the graphs minted for its labels, and an edge of g joins those both its endpoints joined. |
| GraphCollections.SplitVertexIds | gradoop-flink/src/test/java/org/gradoop/model/impl/operators/auxiliary/graphOverlapSplitByTest.java:32-35 | With an injective mint and a mint(l) that is unused in the store, the graph for label l holds exactly the vertices of g classified under l. |
| GraphCollections.SplitEdgeIds | gradoop-flink/src/test/java/org/gradoop/model/impl/operators/auxiliary/graphOverlapSplitByTest.java:32-35 | The graph for label l holds exactly the edges of g whose two endpoints both joined it. |
| GraphCollections.SplitEdgeNeedsEndpoints | gradoop-flink/src/test/java/org/gradoop/model/impl/operators/auxiliary/graphOverlapSplitByTest.java:32-35 | An edge in the graph for label l has both endpoints classified under l and in that graph. |
| GraphCollections.SplitKeepsOtherGraphs | gradoop-flink/src/test/java/org/gradoop/model/impl/operators/auxiliary/graphOverlapSplitByTest.java:32-35 | Every graph that is not newly minted, including the one split, keeps its vertices and edges. |
| GraphCollections.SplitPreservesValid | gradoop-flink/src/test/java/org/gradoop/model/impl/operators/auxiliary/graphOverlapSplitByTest.java:32-35 | Split-by creates no dangling edge. |
| GraphCollections.SplitGraphCount | gradoop-flink/src/test/java/org/gradoop/model/impl/operators/auxiliary/graphOverlapSplitByTest.java:38-39 | With an injective mint there is one new graph per distinct label. |
| SplitByModulo.ModuloLabels | gradoop-flink/src/test/java/org/gradoop/model/impl/operators/auxiliary/graphOverlapSplitByTest.java:51-64 | -2 is present iff the id is even and -3 iff it is a multiple of 3 (Java `%`). -1 is present iff neither applies. The list has 1 or 2 distinct labels, `[-2, -3]` when two. |
| SplitByModulo.ModuloLabelsByDivisibility | gradoop-flink/src/test/java/org/gradoop/model/impl/operators/auxiliary/graphOverlapSplitByTest.java:53-63 | Java's remainder test agrees with mathematical divisibility, negative ids included. |
| SplitByModulo.Classify | gradoop-flink/src/test/java/org/gradoop/model/impl/operators/auxiliary/graphOverlapSplitByTest.java:46-66 | The classifier split-by uses gives a non-empty label list for every vertex: -2 iff its id is even, -3 iff it is a multiple of 3, and -1 iff neither. |
| SplitByModulo.Execute | gradoop-flink/src/test/java/org/gradoop/model/impl/operators/auxiliary/graphOverlapSplitByTest.java:49-65 | The step-by-step list with its inNewGraph flag equals ModuloLabels and is never empty. |
| SplitByModulo.ModuloSplitThreeGraphs | gradoop-flink/src/test/java/org/gradoop/model/impl/operators/auxiliary/graphOverlapSplitByTest.java:26-44 | A graph with an even vertex, a multiple of 3 and a vertex that is neither splits into exactly three graphs, labelled -1, -2 and -3. |
| SplitByModulo.ModuloSplitCoversGraph | gradoop-flink/src/test/java/org/gradoop/model/impl/operators/auxiliary/graphOverlapSplitByTest.java:40-41 | Every vertex of the split graph lands in at least one new graph. |

## Left out

- `decodeValueFromString` (BasicHandler.java:105-130) is not modelled. It rests on Java's parseInt/parseFloat/parseDouble text parsing.
- `getColumnKeysFromFamiliy` (BasicHandler.java:74-82) is not modelled. It has no caller in this core, and it reads 8-byte keys that do not match the 4-byte label qualifiers.
- Float and double values are raw 32/64-bit patterns. No floating-point arithmetic or NaN canonicalisation is modelled.
- HBase's `Bytes.toInt`/`toLong`/`toFloat`/`toDouble` are modelled by their effect: they read the leading 4 or 8 bytes and fail on a shorter payload. The library's exception on a short payload is the model's `MalformedPayload`.
- `Bytes.toBoolean` fails on a payload that is not exactly one byte. The model reports that failure as `MalformedPayload`.
- UTF-8: strings are sequences of Unicode scalar values.
  - Java's UTF-16 surrogate handling is not modelled.
  - A malformed byte decodes to U+FFFD, one byte at a time. Java's replacement may group bytes differently.
- The family names come from `HBaseGraphStore` constants, which are not part of this model. They are fixed here as the byte strings `labels` and `properties`.
- HBase `Put`/`Result` internals are abstract. A `Put` is a list of cells. A `Result` gives each family's columns as a sequence in ascending unsigned qualifier order. That order is a precondition of the label round trip.
- Java `null` fields, entities and keys are not modelled. A property map has every listed key.
- Drill-up is modelled on long-valued properties only. The string properties `topic` and `gender` of the test graph are not carried, so "other properties untouched" is stated for long-valued ones.
- Drilling.DrillProperties: no test covers a drill into a new key that already exists. The model uses the in-place rule for it, moving the old value to the next free `key__n`.
- Drilling.DrillMissingKey: an element without the source key is left unchanged, as the drill tests assert. The drill does not fail on it.
- The `DrillUpDivideBy` function is modelled; no other drill functions, and no drill-down.
- Drilling.DivideBy: the `Divisor` type excludes a zero divisor, so the model has no division by zero. Java would throw `ArithmeticException` on the first element drilled.
- Flink execution, `callForGraph` plumbing, `FlinkAsciiGraphLoader`/GDL parsing and parallelism are not modelled. The drill scenarios transcribe the test graph's long properties by hand.
- The graph-store fixture behind the overlap and split-by tests is not part of this model. So the concrete counts of those tests (3/4, 2/2, 2/1, 0/0, 3 graph ids, and 3 graphs / 11 vertices / 8 edges) are proved as the general laws they instance, not as numbers.
- The overlap test's vertex/edge `equals` lookups for Alice, Bob and edges 0/1 are not modelled.
- New graph ids and graph heads: the model takes the new id g3, or the `mint` function of split-by, as a parameter. The lemmas require the mint to be injective and the ids they are about to be unused in the store.
- The split-by classifier sees a vertex's id and stored vertex. Graph-head properties are not modelled.
- The Exclude and Combine operators are not modelled; no code for them is part of this model.
- `DistinctTargetVertexCountRunner` is a command-line job of file I/O and dataflow plumbing and is not modelled.
- `DefaultEdge.toString` and the `LabeledPropertyContainer` superclass are not modelled. The superclass is not part of this model; label and properties are plain fields.

## Findings

| source | as written | input that shows it | evidently intended | confidence | as-written member | corrected member |
|---|---|---|---|---|---|---|
| gradoop-core/src/main/java/org/gradoop/core/storage/hbase/BasicHandler.java:93 | the fourth branch tests `Long.class` again, so it can never match and Float throws `UnsupportedTypeException` | any `Float`, e.g. `1.0f` | `Float.class`, giving `TYPE_FLOAT` (0x03) as `encodeValueToBytes` does | high, not executed | TypeCodec.GetTypeAsWrittenRefusesFloat | TypeCodec.GetTypeIsEncodedTag |
| gradoop-core/src/main/java/org/gradoop/model/impl/id/GradoopIds.java:37 | `compare == -1` treats only -1 as "less"; any other negative result returns `id2` | a `compareTo` answering by difference: min(1, 5) gives 5 | `compare < 0`, returning the smaller identifier | low (the `GradoopId.compareTo` in use is not part of this model and may answer only -1/0/1), not executed | GradoopIds.MinAsWrittenMissesOtherNegatives | GradoopIds.MinBySignIsLeast |
