/**
 * The typed property-value codec of the HBase entity handler: a one-byte
 * type code followed by the value's bytes, and its decoder.
 */
module TypeCodec {
  import opened JavaTypes
  import opened Wrappers
  import BigEndian
  import Utf8

  const TYPE_BOOLEAN: byte := 0x00
  const TYPE_INTEGER: byte := 0x01
  const TYPE_LONG: byte := 0x02
  const TYPE_FLOAT: byte := 0x03
  const TYPE_DOUBLE: byte := 0x04
  const TYPE_STRING: byte := 0x05

  /**
   * A property value as the handler sees it: an object of one of the six
   * supported classes, or of any other class (named by `className`). Floats
   * and doubles are kept as their raw IEEE-754 bits.
   */
  datatype Value =
    | BoolValue(b: bool)
    | IntValue(i: i32)
    | LongValue(l: i64)
    | FloatValue(floatBits: u32)
    | DoubleValue(doubleBits: u64)
    | StringValue(s: string)
    | OtherValue(className: string)

  /** What decoding a column value gives: nothing for an empty value. */
  datatype Decoded = Absent | Present(value: Value)

  /** The two ways the codec fails with an UnsupportedTypeException, and the
      byte library's refusal of a payload of the wrong width. */
  datatype CodecError =
    | UnsupportedClass(className: string)
    | UnsupportedTypeCode(code: byte)
    | MalformedPayload(code: byte)

  predicate Supported(v: Value) {
    !v.OtherValue?
  }

  function ClassName(v: Value): string {
    match v
    case BoolValue(_) => "java.lang.Boolean"
    case IntValue(_) => "java.lang.Integer"
    case LongValue(_) => "java.lang.Long"
    case FloatValue(_) => "java.lang.Float"
    case DoubleValue(_) => "java.lang.Double"
    case StringValue(_) => "java.lang.String"
    case OtherValue(c) => c
  }

  /** The payload width a type code fixes; strings have none. */
  function PayloadWidth(code: byte): nat
    requires code < TYPE_STRING
  {
    if code == TYPE_BOOLEAN then 1
    else if code == TYPE_INTEGER || code == TYPE_FLOAT then 4
    else 8
  }

  // The byte library's conversions of one payload.

  function BooleanBytes(b: bool): seq<byte> {
    [if b then 0xFF else 0x00]
  }

  function IntBytes(v: i32): seq<byte> {
    BigEndian.ToBytes(4, ToUnsigned32(v) as nat)
  }

  function LongBytes(v: i64): seq<byte> {
    BigEndian.ToBytes(8, ToUnsigned64(v) as nat)
  }

  function FloatBytes(bits: u32): seq<byte> {
    BigEndian.ToBytes(4, bits as nat)
  }

  function DoubleBytes(bits: u64): seq<byte> {
    BigEndian.ToBytes(8, bits as nat)
  }

  /**
   * encodeValueToBytes: the type code of the value's class followed by the
   * value's bytes; any other class is refused.
   */
  function Encode(v: Value): (r: Result<seq<byte>, CodecError>)
    ensures r.Failure? <==> !Supported(v)
    ensures r.Failure? ==> r.error == UnsupportedClass(ClassName(v))
    ensures r.Success? ==> |r.value| >= 1 && r.value[0] <= TYPE_STRING
    ensures r.Success? && r.value[0] < TYPE_STRING ==> |r.value| == 1 + PayloadWidth(r.value[0])
  {
    match v
    case BoolValue(b) => Success([TYPE_BOOLEAN] + BooleanBytes(b))
    case IntValue(i) => Success([TYPE_INTEGER] + IntBytes(i))
    case LongValue(l) => Success([TYPE_LONG] + LongBytes(l))
    case FloatValue(bits) => Success([TYPE_FLOAT] + FloatBytes(bits))
    case DoubleValue(bits) => Success([TYPE_DOUBLE] + DoubleBytes(bits))
    case StringValue(s) => Success([TYPE_STRING] + Utf8.Encode(s))
    case OtherValue(c) => Failure(UnsupportedClass(c))
  }

  /**
   * decodeValueFromBytes: an empty value is absent; otherwise the first byte
   * picks the kind and the rest is its payload. A boolean payload must be
   * exactly one byte; the numeric kinds read the leading bytes of theirs and
   * fail only when it is too short.
   */
  function Decode(enc: seq<byte>): (r: Result<Decoded, CodecError>)
    ensures enc == [] <==> r == Success(Absent)
    ensures enc != [] && enc[0] > TYPE_STRING ==> r == Failure(UnsupportedTypeCode(enc[0]))
    ensures enc != [] && enc[0] == TYPE_BOOLEAN ==> (r.Failure? <==> |enc| != 2)
    ensures enc != [] && TYPE_BOOLEAN < enc[0] < TYPE_STRING ==> (r.Failure? <==> |enc| < 1 + PayloadWidth(enc[0]))
    ensures enc != [] && enc[0] == TYPE_STRING ==> r.Success?
    ensures r.Success? && r.value.Present? ==> Supported(r.value.value)
    ensures r.Success? && r.value.Present? ==> GetType(r.value.value) == Success(enc[0])
  {
    if enc == [] then Success(Absent)
    else
      var code, payload := enc[0], enc[1..];
      if code > TYPE_STRING then Failure(UnsupportedTypeCode(code))
      else if code == TYPE_BOOLEAN && |payload| != 1 then Failure(MalformedPayload(code))
      else if code < TYPE_STRING && |payload| < PayloadWidth(code) then Failure(MalformedPayload(code))
      else
        BigEndian.Pow256Widths();
        var n := if code < TYPE_STRING then BigEndian.FromBytes(payload[..PayloadWidth(code)]) else 0;
        Success(Present(
          if code == TYPE_BOOLEAN then BoolValue(payload[0] != 0)
          else if code == TYPE_INTEGER then IntValue(ToSigned32(n as u32))
          else if code == TYPE_LONG then LongValue(ToSigned64(n as u64))
          else if code == TYPE_FLOAT then FloatValue(n as u32)
          else if code == TYPE_DOUBLE then DoubleValue(n as u64)
          else StringValue(Utf8.Decode(payload))))
  }

  /** Decoding reverses encoding for every supported value. */
  lemma DecodeEncode(v: Value)
    requires Supported(v)
    ensures Encode(v).Success? && Decode(Encode(v).value) == Success(Present(v))
  {
    var enc := Encode(v).value;
    assert enc[1..] == match v
      case BoolValue(b) => BooleanBytes(b)
      case IntValue(i) => IntBytes(i)
      case LongValue(l) => LongBytes(l)
      case FloatValue(bits) => FloatBytes(bits)
      case DoubleValue(bits) => DoubleBytes(bits)
      case StringValue(s) => Utf8.Encode(s)
      case OtherValue(_) => [];
    assert enc[1..][..|enc| - 1] == enc[1..];
    match v
    case BoolValue(b) =>
    case IntValue(i) => BigEndian.FromToBytes(4, ToUnsigned32(i) as nat);
    case LongValue(l) => BigEndian.FromToBytes(8, ToUnsigned64(l) as nat);
    case FloatValue(bits) => BigEndian.FromToBytes(4, bits as nat);
    case DoubleValue(bits) => BigEndian.FromToBytes(8, bits as nat);
    case StringValue(s) => Utf8.DecodeEncode(s);
  }

  /**
   * Conversely, a numeric value that decodes is re-encoded to the same bytes:
   * for these kinds every well-sized payload is canonical.
   */
  lemma EncodeDecodeNumeric(enc: seq<byte>)
    requires Decode(enc).Success? && Decode(enc).value.Present?
    requires enc[0] == TYPE_INTEGER || enc[0] == TYPE_LONG || enc[0] == TYPE_FLOAT || enc[0] == TYPE_DOUBLE
    ensures Encode(Decode(enc).value.value) == Success(enc[..1 + PayloadWidth(enc[0])])
  {
    var w := PayloadWidth(enc[0]);
    var payload := enc[1..1 + w];
    BigEndian.ToFromBytes(payload);
    assert enc[1..][..w] == payload;
    assert enc[..1 + w] == [enc[0]] + payload;
  }

  /** A numeric payload longer than its kind's width decodes from its leading bytes alone. */
  lemma DecodeReadsLeadingBytes(enc: seq<byte>)
    requires enc != [] && TYPE_BOOLEAN < enc[0] < TYPE_STRING && |enc| >= 1 + PayloadWidth(enc[0])
    ensures Decode(enc) == Decode(enc[..1 + PayloadWidth(enc[0])])
  {
    var w := PayloadWidth(enc[0]);
    assert enc[1..][..w] == enc[..1 + w][1..][..w];
  }

  /** A trailing byte after an integer's four payload bytes is ignored. */
  lemma DecodeIntIgnoresTrailingByte()
    ensures Decode([TYPE_INTEGER, 0, 0, 0, 1, 0xFF]) == Success(Present(IntValue(1)))
  {
    DecodeReadsLeadingBytes([TYPE_INTEGER, 0, 0, 0, 1, 0xFF]);
    assert [TYPE_INTEGER, 0, 0, 0, 1, 0xFF][..5] == Encode(IntValue(1)).value;
    DecodeEncode(IntValue(1));
  }

  /** A boolean decodes as true exactly when its payload byte is non-zero. */
  lemma DecodeBoolean(x: byte)
    ensures Decode([TYPE_BOOLEAN, x]) == Success(Present(BoolValue(x != 0)))
  {
    assert [TYPE_BOOLEAN, x][1..] == [x];
  }

  /**
   * getType, as the code is written: the branch meant for Float tests the
   * Long class a second time, so a Float falls through to the refusal.
   */
  function GetTypeAsWritten(v: Value): (r: Result<byte, CodecError>)
    ensures r.Success? <==> Supported(v) && !v.FloatValue?
    ensures r.Failure? ==> r.error == UnsupportedClass(ClassName(v))
  {
    match v
    case BoolValue(_) => Success(TYPE_BOOLEAN)
    case IntValue(_) => Success(TYPE_INTEGER)
    case LongValue(_) => Success(TYPE_LONG)
    case DoubleValue(_) => Success(TYPE_DOUBLE)
    case StringValue(_) => Success(TYPE_STRING)
    case _ => Failure(UnsupportedClass(ClassName(v)))
  }

  /** getType as intended: the type code of each of the six classes. */
  function GetType(v: Value): (r: Result<byte, CodecError>)
    ensures r.Success? <==> Supported(v)
    ensures r.Failure? ==> r.error == UnsupportedClass(ClassName(v))
  {
    match v
    case BoolValue(_) => Success(TYPE_BOOLEAN)
    case IntValue(_) => Success(TYPE_INTEGER)
    case LongValue(_) => Success(TYPE_LONG)
    case FloatValue(_) => Success(TYPE_FLOAT)
    case DoubleValue(_) => Success(TYPE_DOUBLE)
    case StringValue(_) => Success(TYPE_STRING)
    case OtherValue(_) => Failure(UnsupportedClass(ClassName(v)))
  }

  /** The corrected getType names exactly the type code that encoding writes. */
  lemma GetTypeIsEncodedTag(v: Value)
    ensures GetType(v).Success? <==> Encode(v).Success?
    ensures GetType(v).Success? ==> GetType(v).value == Encode(v).value[0]
    ensures GetType(v).Failure? ==> GetType(v).error == Encode(v).error
  {
  }

  /**
   * The code as written agrees with encoding on every class but Float, which
   * it refuses although encoding accepts it.
   */
  lemma GetTypeAsWrittenRefusesFloat(v: Value)
    ensures v.FloatValue? ==>
              && GetTypeAsWritten(v) == Failure(UnsupportedClass("java.lang.Float"))
              && Encode(v).Success? && Encode(v).value[0] == TYPE_FLOAT
    ensures !v.FloatValue? ==> GetTypeAsWritten(v) == GetType(v)
  {
  }
}
