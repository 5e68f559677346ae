/**
  Information elements, their values, and how one value is laid out on the wire
  (section 6.1 of RFC 7011, with the variable-length prefix of section 7).
 */
module Elements {
  import opened Bytes

  datatype DataType =
    | OctetArray | Unsigned8 | Unsigned16 | Unsigned32 | Unsigned64
    | Signed8 | Signed16 | Signed32 | Signed64 | Float32 | Float64 | Boolean
    | MacAddress | String
    | DateTimeSeconds | DateTimeMilliseconds | DateTimeMicroseconds | DateTimeNanoseconds
    | Ipv4Address | Ipv6Address | BasicList | SubTemplateList | SubTemplateMultiList
    | InvalidDataType

  const VARIABLE_LENGTH: u16 := 65535

  function TypeLength(t: DataType): u16 {
    match t
    case OctetArray | String | BasicList | SubTemplateList | SubTemplateMultiList => VARIABLE_LENGTH
    case Unsigned8 | Signed8 | Boolean => 1
    case Unsigned16 | Signed16 => 2
    case Unsigned32 | Signed32 | Float32 | DateTimeSeconds | Ipv4Address => 4
    case Unsigned64 | Signed64 | Float64 | DateTimeMilliseconds | DateTimeMicroseconds | DateTimeNanoseconds => 8
    case MacAddress => 6
    case Ipv6Address => 16
    case InvalidDataType => 0
  }

  /** The types whose values the library encodes and decodes. */
  predicate Supported(t: DataType) {
    match t
    case OctetArray | BasicList | SubTemplateList | SubTemplateMultiList => false
    case DateTimeMicroseconds | DateTimeNanoseconds | InvalidDataType => false
    case _ => true
  }

  datatype InfoElement = InfoElement(
    name: string, elementId: u16, dataType: DataType, enterpriseId: u32, len: u16)

  /** Floats are carried as their bit patterns; a nil address is the empty one. */
  datatype Value =
    | U8(n8: byte) | U16(n16: u16) | U32(n32: u32) | U64(n64: u64)
    | S8(s8: i8) | S16(s16: i16) | S32(s32: i32) | S64(s64: i64)
    | F32(bits32: u32) | F64(bits64: u64) | Bool(flag: bool)
    | Mac(mac: seq<byte>) | Str(text: seq<byte>) | IP(ip: seq<byte>)

  datatype Element = Element(ie: InfoElement, value: Value)

  /** The value variant that the constructors pair with each data type. */
  predicate HasType(v: Value, t: DataType) {
    match t
    case Unsigned8 => v.U8?
    case Unsigned16 => v.U16?
    case Unsigned32 | DateTimeSeconds => v.U32?
    case Unsigned64 | DateTimeMilliseconds => v.U64?
    case Signed8 => v.S8?
    case Signed16 => v.S16?
    case Signed32 => v.S32?
    case Signed64 => v.S64?
    case Float32 => v.F32?
    case Float64 => v.F64?
    case Boolean => v.Bool?
    case MacAddress => v.Mac?
    case String => v.Str?
    case Ipv4Address | Ipv6Address => v.IP?
    case _ => true
  }

  // ---------- net.IP ----------

  const MAPPED_PREFIX: seq<byte> := [0, 0, 0, 0, 0, 0, 0, 0, 0, 0, 255, 255]

  function To4(ip: seq<byte>): (r: Option<seq<byte>>)
    ensures r.Some? ==> |r.value| == 4
  {
    if |ip| == 4 then Some(ip)
    else if |ip| == 16 && ip[..12] == MAPPED_PREFIX then Some(ip[12..])
    else None
  }

  function To16(ip: seq<byte>): (r: Option<seq<byte>>)
    ensures r.Some? ==> |r.value| == 16
  {
    if |ip| == 4 then Some(MAPPED_PREFIX + ip)
    else if |ip| == 16 then Some(ip)
    else None
  }

  // ---------- lengths and emptiness ----------

  /** `GetLength`: the registered length, or for strings the text with its length prefix. */
  function FieldLength(e: Element): nat {
    match e.value
    case Str(text) => if |text| < 255 then |text| + 1 else |text| + 3
    case _ => e.ie.len
  }

  /** `IsValueEmpty`; both float zeros compare equal to zero. */
  predicate IsValueEmpty(v: Value) {
    match v
    case U8(n) => n == 0
    case U16(n) => n == 0
    case U32(n) => n == 0
    case U64(n) => n == 0
    case S8(n) => n == 0
    case S16(n) => n == 0
    case S32(n) => n == 0
    case S64(n) => n == 0
    case F32(b) => b == 0 || b == 0x8000_0000
    case F64(b) => b == 0 || b == 0x8000_0000_0000_0000
    case Bool(f) => !f
    case Mac(m) => m == []
    case Str(t) => t == []
    case IP(a) => a == []
  }

  /** The value a template carries: `DecodeAndCreateInfoElementWithValue` on nil bytes.
      The 64-bit signed case falls through to reading the missing bytes. */
  function ZeroValue(t: DataType): (r: Outcome<Value>)
    ensures r.Ok? <==> Supported(t) && t != Signed64
    ensures r.Ok? ==> HasType(r.value, t) && IsValueEmpty(r.value)
  {
    match t
    case Unsigned8 => Ok(U8(0))
    case Unsigned16 => Ok(U16(0))
    case Unsigned32 | DateTimeSeconds => Ok(U32(0))
    case Unsigned64 | DateTimeMilliseconds => Ok(U64(0))
    case Signed8 => Ok(S8(0))
    case Signed16 => Ok(S16(0))
    case Signed32 => Ok(S32(0))
    case Signed64 => Panic
    case Float32 => Ok(F32(0))
    case Float64 => Ok(F64(0))
    case Boolean => Ok(Bool(false))
    case MacAddress => Ok(Mac([]))
    case String => Ok(Str([]))
    case Ipv4Address | Ipv6Address => Ok(IP([]))
    case _ => Error
  }

  // ---------- encoding ----------

  /** The bytes that the encoder writes for a value of the right variant, or None for an error. */
  function Written(e: Element): Option<seq<byte>>
    requires HasType(e.value, e.ie.dataType)
  {
    Widths();
    match e.ie.dataType
    case Unsigned8 => Some([e.value.n8])
    case Unsigned16 => Some(BigEndian(e.value.n16, 2))
    case Unsigned32 | DateTimeSeconds => Some(BigEndian(e.value.n32, 4))
    case Unsigned64 | DateTimeMilliseconds => Some(BigEndian(e.value.n64, 8))
    case Signed8 => Some(BigEndian(ToUnsigned(e.value.s8, 1), 1))
    case Signed16 => Some(BigEndian(ToUnsigned(e.value.s16, 2), 2))
    case Signed32 => Some(BigEndian(ToUnsigned(e.value.s32, 4), 4))
    case Signed64 => Some(BigEndian(ToUnsigned(e.value.s64, 8), 8))
    case Float32 => Some(BigEndian(e.value.bits32, 4))
    case Float64 => Some(BigEndian(e.value.bits64, 8))
    case Boolean => Some([if e.value.flag then 1 else 2])
    case MacAddress => Some(e.value.mac)
    case Ipv4Address => To4(e.value.ip)
    case Ipv6Address => To16(e.value.ip)
    case String =>
      var text := e.value.text;
      if |text| < 255 then Some([|text|] + text)
      else if |text| <= 65535 then Some([255] + BigEndian(|text|, 2) + text)
      else None
    case _ => None
  }

  // ---------- decoding ----------

  /** `DecodeAndCreateInfoElementWithValue` on bytes actually read; reading past them panics. */
  function Decode(t: DataType, data: seq<byte>): (r: Outcome<Value>)
  {
    Widths();
    match t
    case Unsigned8 => if data == [] then Panic else Ok(U8(data[0]))
    case Unsigned16 => var n :- Uint(data, 2); Ok(U16(n))
    case Unsigned32 | DateTimeSeconds => var n :- Uint(data, 4); Ok(U32(n))
    case Unsigned64 | DateTimeMilliseconds => var n :- Uint(data, 8); Ok(U64(n))
    case Signed8 => var n :- Uint(data, 1); Ok(S8(ToSigned(n, 1)))
    case Signed16 => var n :- Uint(data, 2); Ok(S16(ToSigned(n, 2)))
    case Signed32 => var n :- Uint(data, 4); Ok(S32(ToSigned(n, 4)))
    case Signed64 => var n :- Uint(data, 8); Ok(S64(ToSigned(n, 8)))
    case Float32 => var n :- Uint(data, 4); Ok(F32(n))
    case Float64 => var n :- Uint(data, 8); Ok(F64(n))
    case Boolean => if data == [] then Panic else Ok(Bool(data[0] == 1))
    case MacAddress => Ok(Mac(data))
    case Ipv4Address | Ipv6Address => Ok(IP(data))
    case String => Ok(Str(data))
    case _ => Error
  }

  /** `binary.BigEndian.Uint16` and its siblings: they panic on a slice shorter than `w`. */
  function Uint(data: seq<byte>, w: nat): (r: Outcome<nat>)
    ensures r.Ok? ==> r.value < Pow256(w)
  {
    if |data| < w then Panic else
      WritesBack(data[..w]);
      Ok(FromBigEndian(data[..w]))
  }

  /** `bytes.Buffer.Next`: at most what is there. */
  function Next(buf: seq<byte>, n: nat): (r: (seq<byte>, seq<byte>))
    ensures r.0 + r.1 == buf
  {
    if n <= |buf| then (buf[..n], buf[n..]) else (buf, [])
  }

  /** `getFieldLength`: the announced length and what is left; read errors are ignored. */
  function AnnouncedLength(buf: seq<byte>): (r: (nat, seq<byte>))
    ensures |r.1| <= |buf| && (buf != [] ==> |r.1| < |buf|)
  {
    if buf == [] then (0, [])
    else if buf[0] < 255 then (buf[0], buf[1..])
    else if |buf| < 3 then (0, [])
    else (FromBigEndian(buf[1..3]), buf[3..])
  }

  /** One step of the inner decoding loop: the element read and the rest of the buffer. */
  function ReadElement(ie: InfoElement, buf: seq<byte>): (r: (Outcome<Element>, seq<byte>))
    ensures |r.1| <= |buf|
  {
    var (n, after) := if ie.len == VARIABLE_LENGTH then AnnouncedLength(buf) else (ie.len, buf);
    var (data, rest) := Next(after, n);
    (match Decode(ie.dataType, data)
     case Ok(v) => Ok(Element(ie, v))
     case Error => Error
     case Panic => Panic
     case Diverges => Diverges,
     rest)
  }

  // ---------- round trip ----------

  /** An element as the registry describes it. */
  predicate WellDescribed(ie: InfoElement) {
    ie.len == TypeLength(ie.dataType)
  }

  /** Elements that the encoder accepts and that fill their slot: addresses of the right
      family and size, strings that fit a two-byte length. */
  predicate Encodable(e: Element) {
    && WellDescribed(e.ie) && Supported(e.ie.dataType) && HasType(e.value, e.ie.dataType)
    && (e.value.Mac? ==> |e.value.mac| == 6)
    && (e.value.Str? ==> |e.value.text| <= 65535)
    && (e.ie.dataType == Ipv4Address ==> To4(e.value.ip).Some?)
    && (e.ie.dataType == Ipv6Address ==> To16(e.value.ip).Some?)
  }

  /** Addresses travel in the form of their type; every other value travels unchanged. */
  function Canonical(e: Element): Element
    requires Encodable(e)
  {
    match e.ie.dataType
    case Ipv4Address => e.(value := IP(To4(e.value.ip).value))
    case Ipv6Address => e.(value := IP(To16(e.value.ip).value))
    case _ => e
  }

  lemma EncodableFillsSlot(e: Element)
    requires Encodable(e)
    ensures Written(e).Some? && |Written(e).value| == FieldLength(e) >= 1
  {
  }

  lemma SignRoundTrip(v: int, w: nat)
    requires 1 <= w && -(Pow256(w) as int) <= 2 * v < Pow256(w)
    ensures ToUnsigned(v, w) < Pow256(w)
    ensures ToSigned(ToUnsigned(v, w), w) == v
  {
  }

  lemma UintRoundTrip(n: nat, w: nat)
    requires n < Pow256(w)
    ensures Uint(BigEndian(n, w), w) == Ok(n)
  {
    ReadsBack(n, w);
    assert BigEndian(n, w)[..w] == BigEndian(n, w);
  }

  /** Decoding the payload written for a value other than a string gives the value back. */
  lemma PayloadRoundTrip(e: Element)
    requires Encodable(e) && e.ie.dataType != String
    ensures Decode(e.ie.dataType, Written(e).value) == Ok(Canonical(e).value)
  {
    Widths();
    match e.ie.dataType
    case Unsigned16 => UintRoundTrip(e.value.n16, 2);
    case Unsigned32 => UintRoundTrip(e.value.n32, 4);
    case DateTimeSeconds => UintRoundTrip(e.value.n32, 4);
    case Unsigned64 => UintRoundTrip(e.value.n64, 8);
    case DateTimeMilliseconds => UintRoundTrip(e.value.n64, 8);
    case Signed8 => SignedRoundTrip(e.value.s8, 1);
    case Signed16 => SignedRoundTrip(e.value.s16, 2);
    case Signed32 => SignedRoundTrip(e.value.s32, 4);
    case Signed64 => SignedRoundTrip(e.value.s64, 8);
    case Float32 => UintRoundTrip(e.value.bits32, 4);
    case Float64 => UintRoundTrip(e.value.bits64, 8);
    case _ =>
  }

  lemma SignedRoundTrip(v: int, w: nat)
    requires 1 <= w && -(Pow256(w) as int) <= 2 * v < Pow256(w)
    ensures var r := Uint(BigEndian(ToUnsigned(v, w), w), w); r.Ok? && ToSigned(r.value, w) == v
  {
    SignRoundTrip(v, w);
    UintRoundTrip(ToUnsigned(v, w), w);
  }

  lemma AnnouncedRoundTrip(text: seq<byte>, rest: seq<byte>)
    requires |text| <= 65535
    ensures var w := if |text| < 255 then [|text|] + text else [255] + BigEndian(|text|, 2) + text;
            AnnouncedLength(w + rest) == (|text|, text + rest)
  {
    hide BigEndian, FromBigEndian;
    if |text| < 255 {
      assert ([|text|] + text + rest)[1..] == text + rest;
    } else {
      Widths();
      ReadsBack(|text|, 2);
      var w := [255] + BigEndian(|text|, 2) + text + rest;
      assert w[1..3] == BigEndian(|text|, 2);
      assert w[3..] == text + rest;
    }
  }

  /** Whatever follows it in the buffer, an encoded element is read back with exactly its own bytes consumed. */
  lemma ElementRoundTrip(e: Element, rest: seq<byte>)
    requires Encodable(e)
    ensures ReadElement(e.ie, Written(e).value + rest) == (Ok(Canonical(e)), rest)
  {
    EncodableFillsSlot(e);
    var w := Written(e).value;
    if e.ie.dataType == String {
      AnnouncedRoundTrip(e.value.text, rest);
      assert (e.value.text + rest)[..|e.value.text|] == e.value.text;
      assert (e.value.text + rest)[|e.value.text|..] == rest;
    } else {
      PayloadRoundTrip(e);
      assert (w + rest)[..|w|] == w && (w + rest)[|w|..] == rest;
    }
  }
}
