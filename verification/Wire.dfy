/**
  The byte layout of data records, template records, sets and messages (sections 3.1 to 3.4
  of RFC 7011), as the exporter prints it.
 */
module Wire {
  import opened Bytes
  import opened Elements

  const MAX_MESSAGE := 65535
  const MESSAGE_HEADER := 16
  const SET_HEADER := 4
  const TEMPLATE_SET_ID: u16 := 2
  const VERSION: u16 := 10

  // ---------- data records ----------

  /** The encoder writes no more than the slot that `FieldLength` reserves. */
  predicate FitsSlot(e: Element) {
    HasType(e.value, e.ie.dataType) && (Written(e).Some? ==> |Written(e).value| <= FieldLength(e))
  }

  function Zeros(n: nat): (s: seq<byte>)
    ensures |s| == n && forall i :: 0 <= i < n ==> s[i] == 0
  {
    seq(n, i => 0)
  }

  /** What the slot of an element holds after encoding; an element that cannot be encoded leaves zeros. */
  function Slot(e: Element): (s: seq<byte>)
    requires FitsSlot(e)
    ensures |s| == FieldLength(e)
  {
    match Written(e)
    case Some(w) => w + Zeros(FieldLength(e) - |w|)
    case None => Zeros(FieldLength(e))
  }

  predicate AllFit(es: seq<Element>) {
    forall i :: 0 <= i < |es| ==> FitsSlot(es[i])
  }

  function RecordLength(es: seq<Element>): nat {
    if es == [] then 0 else FieldLength(es[0]) + RecordLength(es[1..])
  }

  function RecordBytes(es: seq<Element>): (s: seq<byte>)
    requires AllFit(es)
    ensures |s| == RecordLength(es)
  {
    if es == [] then [] else Slot(es[0]) + RecordBytes(es[1..])
  }

  lemma {:induction false} RecordLengthAppend(a: seq<Element>, b: seq<Element>)
    ensures RecordLength(a + b) == RecordLength(a) + RecordLength(b)
  {
    if a == [] {
      assert a + b == b;
    } else {
      RecordLengthAppend(a[1..], b);
      assert (a + b)[1..] == a[1..] + b;
    }
  }

  lemma {:induction false} RecordBytesAppend(a: seq<Element>, b: seq<Element>)
    requires AllFit(a) && AllFit(b)
    ensures AllFit(a + b) && RecordBytes(a + b) == RecordBytes(a) + RecordBytes(b)
  {
    hide FitsSlot, Slot;
    if a == [] {
      assert a + b == b;
    } else {
      RecordBytesAppend(a[1..], b);
      assert (a + b)[1..] == a[1..] + b && (a + b)[0] == a[0];
      Associates(Slot(a[0]), RecordBytes(a[1..]), RecordBytes(b));
    }
  }

  // ---------- template records ----------

  /** Setting the top bit of a byte. */
  function WithTopBit(b: byte): byte {
    if b < 128 then b + 128 else b
  }

  /** A field specifier: element id with the enterprise bit, length, and the enterprise number if there is one. */
  function FieldSpecifier(ie: InfoElement): seq<byte> {
    var id := BigEndian(ie.elementId, 2);
    if ie.enterpriseId == 0 then id + BigEndian(ie.len, 2)
    else [WithTopBit(id[0]), id[1]] + BigEndian(ie.len, 2) + BigEndian(ie.enterpriseId, 4)
  }

  function Specifiers(ies: seq<InfoElement>): seq<byte> {
    if ies == [] then [] else FieldSpecifier(ies[0]) + Specifiers(ies[1..])
  }

  lemma {:induction false} SpecifiersAppend(a: seq<InfoElement>, b: seq<InfoElement>)
    ensures Specifiers(a + b) == Specifiers(a) + Specifiers(b)
  {
    hide FieldSpecifier;
    if a == [] {
      assert a + b == b;
    } else {
      SpecifiersAppend(a[1..], b);
      assert (a + b)[1..] == a[1..] + b && (a + b)[0] == a[0];
      Associates(FieldSpecifier(a[0]), Specifiers(a[1..]), Specifiers(b));
    }
  }

  function TemplateBytes(id: u16, ies: seq<InfoElement>): seq<byte> {
    BigEndian(id, 2) + BigEndian(|ies| % 0x1_0000, 2) + Specifiers(ies)
  }

  /** The shortest data record of a template, in 16-bit arithmetic; a variable-length field counts one. */
  function MinLength(ies: seq<InfoElement>): u16 {
    if ies == [] then 0
    else
      var last := ies[|ies| - 1];
      (MinLength(ies[..|ies| - 1]) + if last.len == VARIABLE_LENGTH then 1 else last.len) % 0x1_0000
  }

  // ---------- sets and messages ----------

  datatype SetType = Template | Data | Undefined

  datatype RecordValue = RecordValue(templateId: u16, elements: seq<Element>)

  datatype SetValue = SetValue(setType: SetType, templateId: u16, records: seq<RecordValue>)

  function Ies(es: seq<Element>): (ies: seq<InfoElement>)
    ensures |ies| == |es| && forall i :: 0 <= i < |es| ==> ies[i] == es[i].ie
  {
    seq(|es|, i requires 0 <= i < |es| => es[i].ie)
  }

  predicate Printable(t: SetType, r: RecordValue) {
    t == Data ==> AllFit(r.elements)
  }

  function PrintRecord(t: SetType, r: RecordValue): seq<byte>
    requires Printable(t, r)
  {
    if t == Data then RecordBytes(r.elements) else TemplateBytes(r.templateId, Ies(r.elements))
  }

  predicate AllPrintable(t: SetType, rs: seq<RecordValue>) {
    forall i :: 0 <= i < |rs| ==> Printable(t, rs[i])
  }

  function PrintRecords(t: SetType, rs: seq<RecordValue>): seq<byte>
    requires AllPrintable(t, rs)
  {
    if rs == [] then [] else PrintRecord(t, rs[0]) + PrintRecords(t, rs[1..])
  }

  lemma {:induction false} PrintRecordsAppend(t: SetType, a: seq<RecordValue>, b: seq<RecordValue>)
    requires AllPrintable(t, a) && AllPrintable(t, b)
    ensures AllPrintable(t, a + b) && PrintRecords(t, a + b) == PrintRecords(t, a) + PrintRecords(t, b)
  {
    hide Printable, PrintRecord;
    if a == [] {
      assert a + b == b;
    } else {
      PrintRecordsAppend(t, a[1..], b);
      assert (a + b)[1..] == a[1..] + b && (a + b)[0] == a[0];
      Associates(PrintRecord(t, a[0]), PrintRecords(t, a[1..]), PrintRecords(t, b));
    }
  }

  function SetLength(s: SetValue): nat
    requires AllPrintable(s.setType, s.records)
  {
    SET_HEADER + |PrintRecords(s.setType, s.records)|
  }

  function SetHeader(s: SetValue): (h: seq<byte>)
    requires AllPrintable(s.setType, s.records)
    ensures |h| == SET_HEADER
  {
    BigEndian(if s.setType == Template then TEMPLATE_SET_ID else s.templateId, 2) +
      BigEndian(SetLength(s) % 0x1_0000, 2)
  }

  function MessageHeader(length: u16, time: u32, seqNumber: u32, domain: u32): (h: seq<byte>)
    ensures |h| == MESSAGE_HEADER
  {
    BigEndian(VERSION, 2) + BigEndian(length, 2) + BigEndian(time, 4) + BigEndian(seqNumber, 4) + BigEndian(domain, 4)
  }

  /** `CreateIPFIXMsg`: one set in one message, refused if it exceeds the size limit. */
  function CreateMessage(s: SetValue, domain: u32, seqNumber: u32, time: u32): Outcome<seq<byte>>
    requires AllPrintable(s.setType, s.records)
  {
    var length := MESSAGE_HEADER + SetLength(s);
    if length > MAX_MESSAGE then Error
    else Ok(MessageHeader(length, time, seqNumber, domain) + SetHeader(s) + PrintRecords(s.setType, s.records))
  }

  /** A built message is exactly as long as its own header says, and at least as long as its two headers. */
  lemma MessageFilled(s: SetValue, domain: u32, seqNumber: u32, time: u32)
    requires AllPrintable(s.setType, s.records)
    ensures var m := CreateMessage(s, domain, seqNumber, time);
            m.Ok? ==>
              && |m.value| == FromBigEndian(m.value[2..4]) == MESSAGE_HEADER + SetLength(s)
              && MESSAGE_HEADER + SET_HEADER <= |m.value| <= MAX_MESSAGE
  {
    hide PrintRecords, BigEndian, FromBigEndian;
    var length := MESSAGE_HEADER + SetLength(s);
    if length <= MAX_MESSAGE {
      Widths();
      ReadsBack(length, 2);
      var m := CreateMessage(s, domain, seqNumber, time).value;
      assert m[2..4] == BigEndian(length, 2);
    }
  }
}
