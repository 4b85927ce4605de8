/**
 * rtValueReader::read (rpc/rtValueReader.cpp): turns the "value" member of an RPC
 * JSON document, an object holding an integer "type" tag and a "value", into an
 * rtValue, by a switch on the tag.
 *
 * rtValue.h is not part of this model: the tag values below are the type
 * characters of the rtValue type system, and the proofs use only that they are
 * distinct. Floating-point numbers are reals; float and double rounding is not
 * modelled.
 */
module RtValueReader {
  import opened RtError

  type Int8 = x: int | -0x80 <= x < 0x80
  type UInt8 = x: int | 0 <= x < 0x100
  type Int32 = x: int | -0x8000_0000 <= x < 0x8000_0000
  type UInt32 = x: int | 0 <= x < 0x1_0000_0000
  type Int64 = x: int | -0x8000_0000_0000_0000 <= x < 0x8000_0000_0000_0000
  type UInt64 = x: int | 0 <= x < 0x1_0000_0000_0000_0000

  const RT_voidType: int := 0         // '\0'
  const RT_valueType: int := 118      // 'v'
  const RT_boolType: int := 98        // 'b'
  const RT_int8_tType: int := 49      // '1'
  const RT_uint8_tType: int := 50     // '2'
  const RT_int32_tType: int := 52     // '4'
  const RT_uint32_tType: int := 53    // '5'
  const RT_int64_tType: int := 54     // '6'
  const RT_uint64_tType: int := 55    // '7'
  const RT_floatType: int := 101      // 'e'
  const RT_doubleType: int := 100     // 'd'
  const RT_stringType: int := 115     // 's'
  const RT_objectType: int := 111     // 'o'
  const RT_functionType: int := 102   // 'f'
  const RT_voidPtrType: int := 122    // 'z'

  /** A JSON value, as far as the reader looks at it. */
  datatype Json = JNull | JBool(b: bool) | JInt(i: int) | JReal(x: real) | JString(s: string)

  /** doc["value"]: the type tag doc["value"]["type"] (read with GetInt) and the payload doc["value"]["value"]. */
  datatype Document = Document(typeTag: Int32, value: Json)

  /** An rtValue: a tagged union. */
  datatype RtValue =
    | Void
    | Bool(b: bool)
    | Int8Value(i8: Int8)
    | UInt8Value(u8: UInt8)
    | Int32Value(i32: Int32)
    | UInt32Value(u32: UInt32)
    | Int64Value(i64: Int64)
    | UInt64Value(u64: UInt64)
    | FloatValue(f: real)
    | DoubleValue(d: real)
    | StringValue(s: string)

  /** static_cast<int8_t>: the value in [-128, 127] congruent to i modulo 256. */
  function NarrowInt8(i: int): (r: Int8)
    ensures (r - i) % 0x100 == 0
  {
    (i + 0x80) % 0x100 - 0x80
  }

  /** static_cast<uint8_t>: the value in [0, 255] congruent to i modulo 256. */
  function NarrowUInt8(i: int): (r: UInt8)
    ensures (r - i) % 0x100 == 0
  {
    i % 0x100
  }

  /** A narrowing cast leaves a value that already fits unchanged, and ignores multiples of 256. */
  lemma NarrowingFixesInRange(i: int, m: int)
    ensures -0x80 <= i < 0x80 <==> NarrowInt8(i) == i
    ensures 0 <= i < 0x100 <==> NarrowUInt8(i) == i
    ensures NarrowInt8(i + 0x100 * m) == NarrowInt8(i) && NarrowUInt8(i + 0x100 * m) == NarrowUInt8(i)
  {
    ModShift(i + 0x80, m);
    ModShift(i, m);
  }

  /** Adding a multiple of 256 does not change the remainder modulo 256. */
  lemma ModShift(a: int, m: int)
    ensures (a + 0x100 * m) % 0x100 == a % 0x100
  {
    var q, r := a / 0x100, a % 0x100;
    assert a + 0x100 * m == 0x100 * (q + m) + r;
  }

  /**
   * The tag the switch compares: the integer cast to rtType, a character type,
   * so only its low eight bits count. Every tag value lies in [0, 127], where the
   * signed and the unsigned cast agree.
   */
  function TagOf(doc: Document): (t: int)
    ensures -0x80 <= t < 0x80 && (t - doc.typeTag) % 0x100 == 0
  {
    NarrowInt8(doc.typeTag)
  }

  /** The tags whose case is assert(false) in the source. */
  predicate AssertedTag(tag: int)
  {
    tag == RT_valueType || tag == RT_objectType || tag == RT_functionType || tag == RT_voidPtrType
  }

  /**
   * What the rapidjson accessor used for each tag demands of the payload: GetBool a
   * boolean, GetInt a 32-bit signed integer, GetUint a 32-bit unsigned one,
   * GetInt64 / GetUint64 a 64-bit one, GetDouble any number, GetString a string.
   */
  predicate PayloadFits(doc: Document)
  {
    var t, v := TagOf(doc), doc.value;
    (t == RT_boolType ==> v.JBool?) &&
    (t == RT_int8_tType || t == RT_uint8_tType || t == RT_int32_tType ==>
       v.JInt? && -0x8000_0000 <= v.i < 0x8000_0000) &&
    (t == RT_uint32_tType ==> v.JInt? && 0 <= v.i < 0x1_0000_0000) &&
    (t == RT_int64_tType ==> v.JInt? && -0x8000_0000_0000_0000 <= v.i < 0x8000_0000_0000_0000) &&
    (t == RT_uint64_tType ==> v.JInt? && 0 <= v.i < 0x1_0000_0000_0000_0000) &&
    (t == RT_floatType || t == RT_doubleType ==> v.JInt? || v.JReal?) &&
    (t == RT_stringType ==> v.JString?)
  }

  /**
   * rtString built from the `const char*` that GetString returns: the characters
   * before the first NUL, or all of them when there is none.
   */
  function CString(s: string): (r: string)
    ensures |r| <= |s| && r == s[..|r|]
    ensures '\0' !in r
    ensures |r| < |s| ==> s[|r|] == '\0'
    ensures '\0' !in s ==> r == s
  {
    if s == [] || s[0] == '\0' then [] else [s[0]] + CString(s[1..])
  }

  /** GetDouble: a JSON number as a real. */
  function NumberValue(v: Json): real
    requires v.JInt? || v.JReal?
  {
    if v.JInt? then v.i as real else v.x
  }

  /**
   * rtValueReader::read: the error code it returns (always RT_OK) and the new
   * content of `to`. A tag that matches no case leaves `to` as it was.
   */
  function Read(to: RtValue, doc: Document): (r: (Error, RtValue))
    requires !AssertedTag(TagOf(doc))
    requires PayloadFits(doc)
    ensures r.0 == RT_OK
  {
    var t, v := TagOf(doc), doc.value;
    var result :=
      if t == RT_voidType then Void
      else if t == RT_boolType then Bool(v.b)
      else if t == RT_int8_tType then Int8Value(NarrowInt8(v.i))
      else if t == RT_uint8_tType then UInt8Value(NarrowUInt8(v.i))
      else if t == RT_int32_tType then Int32Value(v.i)
      else if t == RT_uint32_tType then UInt32Value(v.i)
      else if t == RT_int64_tType then Int64Value(v.i)
      else if t == RT_uint64_tType then UInt64Value(v.i)
      else if t == RT_floatType then FloatValue(NumberValue(v))
      else if t == RT_doubleType then FloatValue(NumberValue(v))   // setFloat, as in the source
      else if t == RT_stringType then StringValue(CString(v.s))
      else to;
    (RT_OK, result)
  }

  /** True when `tag` is one the switch handles without asserting. */
  predicate HandledTag(tag: int)
  {
    tag in {RT_voidType, RT_boolType, RT_int8_tType, RT_uint8_tType, RT_int32_tType, RT_uint32_tType,
            RT_int64_tType, RT_uint64_tType, RT_floatType, RT_doubleType, RT_stringType}
  }

  /** A tag no case matches leaves `to` unchanged, still with RT_OK. */
  lemma UnknownTagKeepsValue(to: RtValue, doc: Document)
    requires !AssertedTag(TagOf(doc)) && !HandledTag(TagOf(doc))
    ensures PayloadFits(doc) && Read(to, doc) == (RT_OK, to)
  {
  }

  /** The result of a handled tag does not depend on the previous content of `to`. */
  lemma HandledTagOverwrites(to1: RtValue, to2: RtValue, doc: Document)
    requires !AssertedTag(TagOf(doc)) && PayloadFits(doc) && HandledTag(TagOf(doc))
    ensures Read(to1, doc) == Read(to2, doc)
  {
  }

  /** Only the low eight bits of the type value select the case: adding 256 changes nothing. */
  lemma TagLowBitsOnly(to: RtValue, doc: Document)
    requires doc.typeTag + 0x100 < 0x8000_0000
    requires !AssertedTag(TagOf(doc)) && PayloadFits(doc)
    ensures var shifted := Document(doc.typeTag + 0x100, doc.value);
            TagOf(shifted) == TagOf(doc) && Read(to, shifted) == Read(to, doc)
  {
    NarrowingFixesInRange(doc.typeTag, 1);
  }

  /** The document a value is sent as: its tag and its payload. */
  function Describe(v: RtValue): Document
  {
    match v
    case Void => Document(RT_voidType, JNull)
    case Bool(b) => Document(RT_boolType, JBool(b))
    case Int8Value(i) => Document(RT_int8_tType, JInt(i))
    case UInt8Value(u) => Document(RT_uint8_tType, JInt(u))
    case Int32Value(i) => Document(RT_int32_tType, JInt(i))
    case UInt32Value(u) => Document(RT_uint32_tType, JInt(u))
    case Int64Value(i) => Document(RT_int64_tType, JInt(i))
    case UInt64Value(u) => Document(RT_uint64_tType, JInt(u))
    case FloatValue(f) => Document(RT_floatType, JReal(f))
    case DoubleValue(d) => Document(RT_doubleType, JReal(d))
    case StringValue(s) => Document(RT_stringType, JString(s))
  }

  /**
   * Reading back a described value gives the value itself, whatever `to` held,
   * except that a double comes back under the float tag and a string is cut at
   * its first NUL. So the round trip is exact if and only if the value is neither
   * a double nor a string holding a NUL.
   */
  lemma {:induction false} ReadDescribeRoundTrip(to: RtValue, v: RtValue)
    ensures !AssertedTag(TagOf(Describe(v))) && PayloadFits(Describe(v))
    ensures Read(to, Describe(v)) ==
              (RT_OK, if v.DoubleValue? then FloatValue(v.d)
                      else if v.StringValue? then StringValue(CString(v.s))
                      else v)
    ensures Read(to, Describe(v)).1 == v <==> !v.DoubleValue? && !(v.StringValue? && '\0' in v.s)
  {
    match v
    case Void =>
    case Bool(_) =>
    case Int8Value(i) => NarrowingFixesInRange(i, 0);
    case UInt8Value(u) => NarrowingFixesInRange(u, 0);
    case Int32Value(_) =>
    case UInt32Value(_) =>
    case Int64Value(_) =>
    case UInt64Value(_) =>
    case FloatValue(_) =>
    case DoubleValue(_) =>
    case StringValue(_) =>
  }

  /** A string payload with an embedded NUL is stored only up to it. */
  lemma EmbeddedNulTruncates(to: RtValue)
    ensures Read(to, Document(RT_stringType, JString("a\0b"))).1 == StringValue("a")
  {
    assert CString("a\0b") == ['a'] + CString("\0b");
  }

  /** The int8 and uint8 tags store the integer reduced modulo 256 into the signed or unsigned byte range. */
  lemma ByteTagsNarrow(to: RtValue, i: int)
    requires -0x8000_0000 <= i < 0x8000_0000
    ensures Read(to, Document(RT_int8_tType, JInt(i))).1 == Int8Value(NarrowInt8(i))
    ensures Read(to, Document(RT_uint8_tType, JInt(i))).1 == UInt8Value(NarrowUInt8(i))
    ensures NarrowInt8(i) % 0x100 == NarrowUInt8(i)
  {
    var q := (i + 0x80) / 0x100;
    assert NarrowInt8(i) == i + 0x100 * -q;
    ModShift(i, -q);
  }
}
