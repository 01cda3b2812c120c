/**
 * DefaultEdge: an edge as seen from one of its vertices, identified by its
 * parallel-edge index, the other vertex's id and its label.
 */
module DefaultEdge {
  import opened JavaTypes
  import TypeCodec

  /**
   * `id` is the vertex-centric index that tells parallel edges apart
   * (stored by the superclass); `otherId` is the vertex at the far end.
   */
  datatype Edge = Edge(id: i64, otherId: i64, edgeLabel: string, properties: map<string, TypeCodec.Value>) {

    function GetOtherId(): i64 {
      otherId
    }

    function GetIndex(): i64 {
      id
    }
  }

  /** What `equals` may be handed: null, an edge, or an object of another class. */
  datatype Object = Null | EdgeObject(edge: Edge) | OtherObject(className: string)

  /** The constructor: index, other vertex, label and properties as given. */
  function NewEdge(otherId: i64, edgeLabel: string, index: i64, properties: map<string, TypeCodec.Value>): (e: Edge)
    ensures e.GetIndex() == index && e.GetOtherId() == otherId
    ensures e.edgeLabel == edgeLabel && e.properties == properties
  {
    Edge(index, otherId, edgeLabel, properties)
  }

  /** equals: false for null and for other classes; otherwise index, other id and label decide. */
  predicate Equals(e: Edge, o: Object)
    ensures Equals(e, o) ==> o.EdgeObject? && o.edge.GetIndex() == e.GetIndex() && o.edge.GetOtherId() == e.GetOtherId()
    ensures o.EdgeObject? && o.edge == e ==> Equals(e, o)
  {
    match o
    case Null => false
    case OtherObject(_) => false
    case EdgeObject(that) => e.id == that.id && e.otherId == that.otherId && e.edgeLabel == that.edgeLabel
  }

  /** Bitwise exclusive or of two naturals, one bit at a time. */
  function Xor(a: nat, b: nat): (r: nat)
    decreases a + b
  {
    if a == 0 && b == 0 then 0
    else (if a % 2 == b % 2 then 0 else 1) + 2 * Xor(a / 2, b / 2)
  }

  function Pow2(w: nat): (p: nat)
    ensures p >= 1
  {
    if w == 0 then 1 else 2 * Pow2(w - 1)
  }

  lemma {:induction false} XorZero(b: nat)
    ensures Xor(0, b) == b
    decreases b
  {
    if b != 0 {
      XorZero(b / 2);
    }
  }

  /** Exclusive or with w one-bits complements a w-bit number. */
  lemma {:induction false} XorOnes(w: nat, b: nat)
    requires b < Pow2(w)
    ensures Xor(Pow2(w) - 1, b) == Pow2(w) - 1 - b
    decreases w
  {
    if w > 0 {
      var ones := Pow2(w) - 1;
      assert ones / 2 == Pow2(w - 1) - 1 && ones % 2 == 1;
      XorOnes(w - 1, b / 2);
    }
  }

  lemma {:induction false} Pow2Add(a: nat, b: nat)
    ensures Pow2(a + b) == Pow2(a) * Pow2(b)
    decreases a
  {
    if a > 0 {
      Pow2Add(a - 1, b);
    }
  }

  lemma Pow2At32()
    ensures Pow2(32) == TWO_32
  {
    assert Pow2(4) == 16 by {
      assert Pow2(1) == 2 && Pow2(2) == 4 && Pow2(3) == 8;
    }
    Pow2Add(4, 4);
    Pow2Add(8, 8);
    Pow2Add(16, 16);
  }

  /**
   * Long.hashCode: the two halves of the long, exclusive-or'ed, as an int.
   * A long in int range hashes to itself when non-negative and to -x - 1
   * when negative.
   */
  function LongHash(x: i64): (r: i32)
    ensures 0 <= x as int < 0x8000_0000 ==> r as int == x as int
    ensures -0x8000_0000 <= x as int < 0 ==> r as int == -(x as int) - 1
  {
    var u := ToUnsigned64(x) as int;
    var hi, lo := u / TWO_32, u % TWO_32;
    XorBound(hi, lo);
    var h := ToSigned32(Xor(hi, lo) as u32);
    if 0 <= x as int < 0x8000_0000 then
      XorZero(lo); h
    else if x as int < 0 && -0x8000_0000 <= x as int then
      Pow2At32(); XorOnes(32, lo); h
    else h
  }

  lemma XorBound(hi: nat, lo: nat)
    requires hi < TWO_32 && lo < TWO_32
    ensures Xor(hi, lo) < TWO_32
  {
    Pow2At32();
    XorWidth(32, hi, lo);
  }

  lemma {:induction false} XorWidth(w: nat, a: nat, b: nat)
    requires a < Pow2(w) && b < Pow2(w)
    ensures Xor(a, b) < Pow2(w)
    decreases w
  {
    if w > 0 && (a != 0 || b != 0) {
      XorWidth(w - 1, a / 2, b / 2);
    }
  }

  /**
   * hashCode: 31 * hash(otherID) + hash(id), in wrapping int arithmetic; for
   * non-negative ids below 2^24 it is exactly 31 * otherID + id.
   */
  function HashCode(e: Edge): (r: i32)
    ensures 0 <= e.otherId as int < 0x100_0000 && 0 <= e.id as int < 0x100_0000 ==>
              r as int == 31 * e.otherId as int + e.id as int
  {
    var sum := 31 * LongHash(e.otherId) as int + LongHash(e.id) as int;
    if 0 <= e.otherId as int < 0x100_0000 && 0 <= e.id as int < 0x100_0000 then
      assert 0 <= sum < 0x8000_0000;
      Wrap32(sum)
    else Wrap32(sum)
  }

  /** Two edges are equal exactly when index, other id and label agree; properties play no part. */
  lemma EqualsIsFieldEquality(a: Edge, b: Edge)
    ensures Equals(a, EdgeObject(b)) <==> a.GetIndex() == b.GetIndex() && a.GetOtherId() == b.GetOtherId() && a.edgeLabel == b.edgeLabel
    ensures forall p :: Equals(a, EdgeObject(b)) == Equals(a, EdgeObject(b.(properties := p)))
  {
  }

  lemma EqualsRefusesOthers(a: Edge, className: string)
    ensures !Equals(a, Null) && !Equals(a, OtherObject(className))
  {
  }

  lemma EqualsReflexive(a: Edge)
    ensures Equals(a, EdgeObject(a))
  {
  }

  lemma EqualsSymmetric(a: Edge, b: Edge)
    ensures Equals(a, EdgeObject(b)) <==> Equals(b, EdgeObject(a))
  {
  }

  lemma EqualsTransitive(a: Edge, b: Edge, c: Edge)
    requires Equals(a, EdgeObject(b)) && Equals(b, EdgeObject(c))
    ensures Equals(a, EdgeObject(c))
  {
  }

  /** Equal edges hash alike: the hash reads only fields that equals compares. */
  lemma HashCodeAgreesWithEquals(a: Edge, b: Edge)
    requires Equals(a, EdgeObject(b))
    ensures HashCode(a) == HashCode(b)
  {
  }
}
