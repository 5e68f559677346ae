/**
  The wire format octet by octet, in plain numbers: what a reader of section 3 of RFC 7011 finds at each offset of a
  message that the exporter builds, and what the collector refuses.
 */
module WireOctets {
  import opened Bytes
  import opened Elements
  import opened Wire
  import opened Parse
  import opened Protocol
  import opened Stream

  /** The number in two octets, the more significant first. */
  function Num16(b: seq<byte>, i: nat): nat
    requires i + 2 <= |b|
  {
    256 * b[i] as int + b[i + 1]
  }

  function Num32(b: seq<byte>, i: nat): nat
    requires i + 4 <= |b|
  {
    0x1_0000 * Num16(b, i) + Num16(b, i + 2)
  }

  function Num64(b: seq<byte>, i: nat): nat
    requires i + 8 <= |b|
  {
    0x1_0000_0000 * Num32(b, i) + Num32(b, i + 4)
  }

  // ---------- numbers ----------

  lemma Two(s: seq<byte>)
    requires |s| == 2
    ensures FromBigEndian(s) == Num16(s, 0)
  {
    assert s[..1] == [s[0]];
    assert FromBigEndian([s[0]]) == FromBigEndian([]) * 256 + s[0] == s[0] by { assert [s[0]][..0] == []; }
  }

  lemma Four(s: seq<byte>)
    requires |s| == 4
    ensures FromBigEndian(s) == Num32(s, 0)
  {
    assert s[..3][..2] == s[..2];
    Two(s[..2]);
    assert FromBigEndian(s[..3]) == FromBigEndian(s[..2]) * 256 + s[2];
  }

  lemma Eight(s: seq<byte>)
    requires |s| == 8
    ensures FromBigEndian(s) == Num64(s, 0)
  {
    assert s[..7][..6] == s[..6] && s[..6][..5] == s[..5] && s[..5][..4] == s[..4];
    Four(s[..4]);
    assert FromBigEndian(s[..5]) == FromBigEndian(s[..4]) * 256 + s[4];
    assert FromBigEndian(s[..6]) == FromBigEndian(s[..5]) * 256 + s[5];
    assert FromBigEndian(s[..7]) == FromBigEndian(s[..6]) * 256 + s[6];
  }

  /** The octets that a number is written in are the number, read most significant first. */
  lemma NumberOctets(n: nat)
    ensures n < 0x1_0000 ==> Num16(BigEndian(n, 2), 0) == n
    ensures n < 0x1_0000_0000 ==> Num32(BigEndian(n, 4), 0) == n
    ensures n < 0x1_0000_0000_0000_0000 ==> Num64(BigEndian(n, 8), 0) == n
  {
    hide BigEndian, FromBigEndian;
    Widths();
    Two(BigEndian(n, 2));
    Four(BigEndian(n, 4));
    Eight(BigEndian(n, 8));
    if n < 0x1_0000 {
      ReadsBack(n, 2);
    }
    if n < 0x1_0000_0000 {
      ReadsBack(n, 4);
    }
    if n < 0x1_0000_0000_0000_0000 {
      ReadsBack(n, 8);
    }
  }

  lemma At16(p: seq<byte>, i: nat)
    requires i + 2 <= |p|
    ensures U16At(p, i) == Num16(p, i)
  {
    hide FromBigEndian;
    Two(p[i..i + 2]);
  }

  lemma At32(p: seq<byte>, i: nat)
    requires i + 4 <= |p|
    ensures U32At(p, i) == Num32(p, i)
  {
    hide FromBigEndian;
    Four(p[i..i + 4]);
  }

  // ---------- values ----------

  /** Two's complement in `m` values. */
  function Complement(v: int, m: nat): int {
    if v < 0 then v + m else v
  }

  /** The octets of a value of each type. */
  ghost predicate HasOctets(e: Element, w: seq<byte>)
    requires HasType(e.value, e.ie.dataType)
  {
    match e.ie.dataType
    case Unsigned8 => w == [e.value.n8]
    case Unsigned16 => |w| == 2 && Num16(w, 0) == e.value.n16
    case Unsigned32 => |w| == 4 && Num32(w, 0) == e.value.n32
    case DateTimeSeconds => |w| == 4 && Num32(w, 0) == e.value.n32
    case Unsigned64 => |w| == 8 && Num64(w, 0) == e.value.n64
    case DateTimeMilliseconds => |w| == 8 && Num64(w, 0) == e.value.n64
    case Signed8 => |w| == 1 && w[0] == Complement(e.value.s8, 0x100)
    case Signed16 => |w| == 2 && Num16(w, 0) == Complement(e.value.s16, 0x1_0000)
    case Signed32 => |w| == 4 && Num32(w, 0) == Complement(e.value.s32, 0x1_0000_0000)
    case Signed64 => |w| == 8 && Num64(w, 0) == Complement(e.value.s64, 0x1_0000_0000_0000_0000)
    case Float32 => |w| == 4 && Num32(w, 0) == e.value.bits32
    case Float64 => |w| == 8 && Num64(w, 0) == e.value.bits64
    case Boolean => w == [if e.value.flag then 1 else 2]
    case MacAddress => w == e.value.mac
    case Ipv4Address => |w| == 4 && (w == e.value.ip || IsMapped(e.value.ip, w))
    case Ipv6Address => |w| == 16 && (w == e.value.ip || IsMapped(w, e.value.ip))
    case String =>
      var text := e.value.text;
      if |text| < 255 then w == [|text|] + text
      else |w| == 3 + |text| && w[0] == 255 && Num16(w, 1) == |text| && w[3..] == text
    case _ => false
  }

  /** A sixteen-byte address that stands for a four-byte one: ten zeros, twice 255, the four bytes. */
  predicate IsMapped(long: seq<byte>, short: seq<byte>) {
    && |long| == 16 && |short| == 4
    && (forall k :: 0 <= k < 10 ==> long[k] == 0) && long[10] == 255 && long[11] == 255
    && (forall k :: 0 <= k < 4 ==> long[12 + k] == short[k])
  }

  /** The types that are written as a number of a fixed width. */
  predicate IsNumber(t: DataType) {
    Supported(t) && t != MacAddress && t != Ipv4Address && t != Ipv6Address && t != String
  }

  /** Exactly the supported types have octets, except for an address of another family or length and a text of more than
      65535 bytes; and they are these. */
  lemma ValueOctets(e: Element)
    requires HasType(e.value, e.ie.dataType)
    ensures Written(e).Some? ==> HasOctets(e, Written(e).value)
    ensures Written(e).Some? <==>
              && Supported(e.ie.dataType) && (e.ie.dataType == String ==> |e.value.text| <= 65535)
              && (e.ie.dataType == Ipv4Address ==>
                    |e.value.ip| == 4 || exists w :: IsMapped(e.value.ip, w))
              && (e.ie.dataType == Ipv6Address ==> |e.value.ip| == 4 || |e.value.ip| == 16)
  {
    if IsNumber(e.ie.dataType) {
      IntegerOctets(e);
    } else {
      OtherOctets(e);
    }
  }

  /** The octets that a value of each type takes; texts take their own length and that of their prefix. */
  lemma FieldWidths(e: Element)
    requires Encodable(e)
    ensures Written(e).Some?
    ensures e.ie.dataType != String ==> |Written(e).value| == e.ie.len == match e.ie.dataType
              case Unsigned8 | Signed8 | Boolean => 1
              case Unsigned16 | Signed16 => 2
              case Unsigned64 | Signed64 | Float64 | DateTimeMilliseconds => 8
              case MacAddress => 6
              case Ipv6Address => 16
              case _ => 4
    ensures e.ie.dataType == String ==> e.ie.len == 65535
  {
    EncodableFillsSlot(e);
  }

  lemma IntegerOctets(e: Element)
    requires HasType(e.value, e.ie.dataType) && IsNumber(e.ie.dataType)
    ensures Written(e).Some? && HasOctets(e, Written(e).value)
  {
    hide BigEndian, Num16, Num32, Num64;
    Widths();
    match e.ie.dataType
    case Unsigned16 => NumberOctets(e.value.n16);
    case Unsigned32 => NumberOctets(e.value.n32);
    case DateTimeSeconds => NumberOctets(e.value.n32);
    case Unsigned64 => NumberOctets(e.value.n64);
    case DateTimeMilliseconds => NumberOctets(e.value.n64);
    case Signed8 => OneOctet(ToUnsigned(e.value.s8, 1));
    case Signed16 => NumberOctets(ToUnsigned(e.value.s16, 2));
    case Signed32 => NumberOctets(ToUnsigned(e.value.s32, 4));
    case Signed64 => NumberOctets(ToUnsigned(e.value.s64, 8));
    case Float32 => NumberOctets(e.value.bits32);
    case Float64 => NumberOctets(e.value.bits64);
    case _ =>
  }

  lemma OtherOctets(e: Element)
    requires HasType(e.value, e.ie.dataType) && !IsNumber(e.ie.dataType)
    ensures Written(e).Some? ==> HasOctets(e, Written(e).value)
    ensures Written(e).Some? <==>
              && Supported(e.ie.dataType) && (e.ie.dataType == String ==> |e.value.text| <= 65535)
              && (e.ie.dataType == Ipv4Address ==>
                    |e.value.ip| == 4 || exists w :: IsMapped(e.value.ip, w))
              && (e.ie.dataType == Ipv6Address ==> |e.value.ip| == 4 || |e.value.ip| == 16)
  {
    hide BigEndian, Num16, To4, To16, IsMapped;
    match e.ie.dataType
    case Ipv4Address => ShortForm(e.value.ip);
    case Ipv6Address => LongForm(e.value.ip);
    case String =>
      if 255 <= |e.value.text| <= 65535 {
        TextOctets(e.value.text);
      }
    case _ =>
  }

  lemma OneOctet(n: nat)
    requires n < 256
    ensures BigEndian(n, 1) == [n]
  {
    assert BigEndian(n / 256, 0) == [];
  }

  lemma ShortForm(ip: seq<byte>)
    ensures To4(ip).Some? <==> |ip| == 4 || exists w :: IsMapped(ip, w)
    ensures To4(ip).Some? ==> To4(ip).value == ip || IsMapped(ip, To4(ip).value)
  {
    if |ip| == 16 {
      assert forall k :: 0 <= k < 12 ==> ip[..12][k] == ip[k];
      assert ip[..12] == MAPPED_PREFIX <==> forall k :: 0 <= k < 12 ==> ip[..12][k] == MAPPED_PREFIX[k];
      assert To4(ip).Some? ==> IsMapped(ip, ip[12..]);
    }
  }

  lemma LongForm(ip: seq<byte>)
    ensures To16(ip).Some? <==> |ip| == 4 || |ip| == 16
    ensures To16(ip).Some? ==> To16(ip).value == ip || IsMapped(To16(ip).value, ip)
  {
  }

  lemma TextOctets(text: seq<byte>)
    requires 255 <= |text| <= 65535
    ensures var w := [255] + BigEndian(|text|, 2) + text;
            |w| == 3 + |text| && w[0] == 255 && Num16(w, 1) == |text| && w[3..] == text
  {
    hide BigEndian;
    NumberOctets(|text|);
    var w := [255] + BigEndian(|text|, 2) + text;
    assert w[1] == BigEndian(|text|, 2)[0] && w[2] == BigEndian(|text|, 2)[1];
  }

  lemma ZeroSlot(e: Element)
    requires FitsSlot(e) && Written(e).None?
    ensures forall k :: 0 <= k < |Slot(e)| ==> Slot(e)[k] == 0
  {
    hide Written;
  }

  // ---------- reading values ----------

  /** What the collector makes of the octets of a field. A field that is too short for its type makes it panic. */
  lemma DecodedOctets(data: seq<byte>)
    ensures Decode(Unsigned8, data) == if |data| < 1 then Panic else Ok(U8(data[0]))
    ensures Decode(Boolean, data) == if |data| < 1 then Panic else Ok(Bool(data[0] == 1))
    ensures Decode(Unsigned16, data) == if |data| < 2 then Panic else Ok(U16(Num16(data, 0)))
    ensures Decode(Unsigned32, data) == if |data| < 4 then Panic else Ok(U32(Num32(data, 0)))
    ensures Decode(Unsigned64, data) == if |data| < 8 then Panic else Ok(U64(Num64(data, 0)))
    ensures Decode(String, data) == Ok(Str(data)) && Decode(MacAddress, data) == Ok(Mac(data))
    ensures Decode(Ipv4Address, data) == Ok(IP(data)) && Decode(Ipv6Address, data) == Ok(IP(data))
  {
    hide FromBigEndian, Num16, Num32, Num64, Uint;
    Widths();
    ReadNumbers(data);
  }

  lemma DecodedTimesAndFloats(data: seq<byte>)
    ensures Decode(DateTimeSeconds, data) == if |data| < 4 then Panic else Ok(U32(Num32(data, 0)))
    ensures Decode(DateTimeMilliseconds, data) == if |data| < 8 then Panic else Ok(U64(Num64(data, 0)))
    ensures Decode(Float32, data) == if |data| < 4 then Panic else Ok(F32(Num32(data, 0)))
    ensures Decode(Float64, data) == if |data| < 8 then Panic else Ok(F64(Num64(data, 0)))
  {
    hide FromBigEndian, Num16, Num32, Num64, Uint;
    Widths();
    ReadNumbers(data);
  }

  lemma ReadNumbers(data: seq<byte>)
    ensures Uint(data, 2) == if |data| < 2 then Panic else Ok(Num16(data, 0))
    ensures Uint(data, 4) == if |data| < 4 then Panic else Ok(Num32(data, 0))
    ensures Uint(data, 8) == if |data| < 8 then Panic else Ok(Num64(data, 0))
  {
    hide FromBigEndian;
    if |data| >= 2 {
      Two(data[..2]);
    }
    if |data| >= 4 {
      Four(data[..4]);
    }
    if |data| >= 8 {
      Eight(data[..8]);
    }
  }

  /** Signed fields are read as two's complement. */
  lemma SignedOctets(data: seq<byte>, v: Value)
    ensures |data| >= 1 && v.S8? && Decode(Signed8, data) == Ok(v) ==> data[0] == Complement(v.s8, 0x100)
    ensures |data| >= 2 && v.S16? && Decode(Signed16, data) == Ok(v) ==> Num16(data, 0) == Complement(v.s16, 0x1_0000)
    ensures |data| >= 4 && v.S32? && Decode(Signed32, data) == Ok(v) ==>
              Num32(data, 0) == Complement(v.s32, 0x1_0000_0000)
  {
    hide FromBigEndian, Num16, Num32, Num64;
    Widths();
    ReadNumbers(data);
    if |data| >= 1 {
      assert data[..1] == [data[0]];
      OneRead(data[0]);
    }
  }

  lemma OneRead(b: byte)
    ensures FromBigEndian([b]) == b
  {
    assert [b][..0] == [];
  }

  // ---------- template records ----------

  /** A field specifier: the element id with the enterprise bit, the field length, and the enterprise number if it is
      not zero. */
  lemma SpecifierOctets(ie: InfoElement)
    ensures var w, ent := FieldSpecifier(ie), ie.enterpriseId != 0;
            && |w| == (if ent then 8 else 4)
            && Num16(w, 0) == (if ent && ie.elementId < 0x8000 then ie.elementId + 0x8000 else ie.elementId)
            && Num16(w, 2) == ie.len && (ent ==> Num32(w, 4) == ie.enterpriseId)
  {
    hide BigEndian;
    NumberOctets(ie.elementId);
    NumberOctets(ie.len);
    NumberOctets(ie.enterpriseId);
    var w, id := FieldSpecifier(ie), BigEndian(ie.elementId, 2);
    assert w[2] == BigEndian(ie.len, 2)[0] && w[3] == BigEndian(ie.len, 2)[1];
    if ie.enterpriseId != 0 {
      assert forall k :: 0 <= k < 4 ==> w[4 + k] == BigEndian(ie.enterpriseId, 4)[k];
    }
  }

  /** A template record: its id, its field count in sixteen bits, and the specifiers. */
  lemma TemplateOctets(id: u16, ies: seq<InfoElement>)
    ensures var w := TemplateBytes(id, ies);
            && |w| >= 4 && Num16(w, 0) == id && Num16(w, 2) == |ies| % 0x1_0000 && w[4..] == Specifiers(ies)
  {
    hide BigEndian, Specifiers;
    NumberOctets(id);
    NumberOctets(|ies| % 0x1_0000);
  }

  // ---------- messages ----------

  /** The two headers of a message, octet by octet: version 10, the length of the message, export time, sequence number
      and domain; then the id of the set, which is 2 for templates, and the length of the set with its header. */
  ghost predicate HasHeaders(m: seq<byte>, s: SetValue, time: u32, seqNumber: u32, domain: u32) {
    && 20 <= |m| <= 65535
    && m[0] == 0 && m[1] == 10 && Num16(m, 2) == |m|
    && Num32(m, 4) == time && Num32(m, 8) == seqNumber && Num32(m, 12) == domain
    && Num16(m, 16) == (if s.setType == Template then 2 else s.templateId)
    && Num16(m, 18) == |m| - 16
  }

  /** Every message that is built has these headers, followed by the records; and one is built exactly if that fits
      65535 octets. */
  lemma MessageOctets(s: SetValue, domain: u32, seqNumber: u32, time: u32)
    requires AllPrintable(s.setType, s.records)
    ensures var m, body := CreateMessage(s, domain, seqNumber, time), PrintRecords(s.setType, s.records);
            && (m.Ok? <==> 20 + |body| <= 65535)
            && (m.Ok? ==> HasHeaders(m.value, s, time, seqNumber, domain) && m.value[20..] == body)
  {
    hide BigEndian, FromBigEndian, PrintRecords, U16At, U32At, MessageHeader;
    var m := CreateMessage(s, domain, seqNumber, time);
    if m.Ok? {
      HeaderRoundTrip(s, domain, seqNumber, time);
      MessageFilled(s, domain, seqNumber, time);
      At16(m.value, 0);
      At16(m.value, 2);
      At32(m.value, 4);
      At32(m.value, 8);
      At32(m.value, 12);
      At16(m.value, 16);
      At16(m.value, 18);
    }
  }

  /** What the exporter writes for a set. */
  lemma SentOctets(x: Exporter, s: SetValue, time: u32)
    requires AllPrintable(s.setType, s.records)
    ensures var (y, out) := SendSet(x, s, time);
            out.Ok? ==>
              && HasHeaders(out.value, s, time, y.seqNumber, x.domain)
              && out.value[20..] == PrintRecords(s.setType, s.records)
  {
    hide CreateMessage, PrintRecords, HasHeaders, UpdateTemplates, AllSane;
    var y := Protocol.Prepared(x, s);
    MessageOctets(s, y.domain, y.seqNumber, time);
    KeepsDomain(x, s.records);
  }

  lemma {:induction false} KeepsDomain(x: Exporter, rs: seq<RecordValue>)
    ensures UpdateTemplates(x, rs).domain == x.domain
    decreases |rs|
  {
    if rs != [] {
      KeepsDomain(UpdateTemplate(x, rs[0]), rs[1..]);
    }
  }

  // ---------- what the collector refuses ----------

  /** A packet without two whole headers, of another version than 10, or with data for a template that is not known in
      its domain is an error and changes nothing. */
  lemma PacketRefused(reg: Index, col: Collector, p: seq<byte>)
    requires || |p| < 20 || Num16(p, 0) != 10
             || (Num16(p, 16) != 2 && TemplateOf(col.templates, U32At(p, 12), U16At(p, 16)).None?)
    ensures DecodePacket(reg, col, p) == (col, Error)
  {
    hide FromBigEndian, U16At, U32At, ReadTemplate, ReadRecords;
    if |p| >= 20 {
      At16(p, 0);
      At16(p, 16);
    }
  }

  /** What is handed on has the header that the packet has, and its set is a template set exactly if the set id is 2. */
  lemma PacketHeader(reg: Index, col: Collector, p: seq<byte>)
    requires DecodePacket(reg, col, p).1.Ok?
    ensures var m := DecodePacket(reg, col, p).1.value;
            && |p| >= 20 && m.version == 10 == Num16(p, 0) && m.length == Num16(p, 2) && m.time == Num32(p, 4)
            && m.seqNumber == Num32(p, 8) && m.domain == Num32(p, 12)
            && (m.contents.setType == Template <==> Num16(p, 16) == 2)
            && (m.contents.setType == Data ==> m.contents.templateId == Num16(p, 16))
  {
    hide FromBigEndian, U16At, U32At, ReadTemplate, ReadRecords;
    At16(p, 0);
    At16(p, 2);
    At32(p, 4);
    At32(p, 8);
    At32(p, 12);
    At16(p, 16);
  }

  /** The length prefix of a text field: one octet, or 255 and two more; what is missing counts as nothing. */
  lemma PrefixOctets(buf: seq<byte>)
    ensures AnnouncedLength(buf) ==
            if |buf| == 0 || (buf[0] == 255 && |buf| < 3) then (0, [])
            else if buf[0] != 255 then (buf[0] as nat, buf[1..])
            else (Num16(buf, 1), buf[3..])
  {
    hide FromBigEndian;
    if |buf| >= 3 {
      Two(buf[1..3]);
    }
  }

  /** How the reading of a stream ends: with fewer than four octets left, on a length field of zero, or on one that is
      more than what is left. */
  lemma StreamEnds(tail: seq<byte>)
    ensures |tail| < 4 ==> Frames(tail) == Cut([], Closed)
    ensures |tail| >= 4 && Num16(tail, 2) == 0 ==> Frames(tail) == Cut([], Spinning)
    ensures |tail| >= 4 && Num16(tail, 2) > |tail| ==> Frames(tail) == Cut([], Truncated)
  {
    hide FromBigEndian, U16At;
    if |tail| >= 4 {
      At16(tail, 2);
    }
  }
}
