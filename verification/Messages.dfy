/** Sets that collect records and keep their length, message headers written field by field, and the message built from
    both. */
module Messages {
  import opened Bytes
  import opened Elements
  import opened Wire
  import opened RecordBuffers

  ghost function ValueOf(r: Record): RecordValue
    reads r
  {
    RecordValue(r.templateId, r.added)
  }

  ghost function ValuesOf(rs: seq<Record>): (vs: seq<RecordValue>)
    reads rs
    ensures |vs| == |rs| && forall i :: 0 <= i < |rs| ==> vs[i] == ValueOf(rs[i])
  {
    seq(|rs|, i requires 0 <= i < |rs| reads rs => ValueOf(rs[i]))
  }

  /** A filled record of the kind that a set of this type holds. */
  ghost predicate Belongs(r: Record, setType: SetType, isDecoding: bool)
    reads r
  {
    r.Complete() && r.isDecoding == isDecoding && r.isTemplate == (setType == Template)
  }

  /** `GetBuffer` of either kind of record. */
  method GetBuffer(r: Record, setType: SetType) returns (b: seq<byte>)
    requires Belongs(r, setType, false) && setType != Undefined
    modifies r`buffer, r`cached
    ensures Belongs(r, setType, false) && Printable(setType, ValueOf(r)) && b == PrintRecord(setType, ValueOf(r))
  {
    hide FitsSlot, RecordBytes, RecordLength, BigEndian, Specifiers, MinLength;
    if r.isTemplate {
      b := r.buffer;
    } else {
      b := r.GetDataBuffer();
    }
  }

  class RecordSet {
    const isDecoding: bool
    var headerBuffer: seq<byte>
    var setType: SetType
    var records: seq<Record>
    var length: nat
    /** The template id given to `PrepareSet`. */
    ghost var templateId: u16

    ghost function Value(): SetValue
      reads this, records
    {
      SetValue(setType, templateId, ValuesOf(records))
    }

    /** The set is filled with records of its type, and when it is to be sent its length is that of its header and its
        records. */
    ghost predicate Valid()
      reads this, records
    {
      && (forall i :: 0 <= i < |records| ==> Belongs(records[i], setType, isDecoding))
      && (records != [] ==> setType != Undefined)
      && (!isDecoding ==>
            && AllPrintable(setType, ValuesOf(records))
            && |headerBuffer| == SET_HEADER && length == SET_HEADER + |PrintRecords(setType, ValuesOf(records))|)
      && (!isDecoding && setType != Undefined ==>
            headerBuffer[..2] == BigEndian(if setType == Template then TEMPLATE_SET_ID else templateId, 2))
    }

    /** `NewSet` followed by `PrepareSet` on a defined type. */
    constructor (setType: SetType, templateId: u16, isDecoding: bool)
      requires setType != Undefined
      ensures Valid() && this.isDecoding == isDecoding && Value() == SetValue(setType, templateId, []) && records == []
    {
      this.isDecoding, this.setType, this.templateId, records := isDecoding, setType, templateId, [];
      if isDecoding {
        headerBuffer, length := [], 0;
      } else {
        var id := if setType == Template then TEMPLATE_SET_ID else templateId;
        headerBuffer, length := BigEndian(id, 2) + [0, 0], SET_HEADER;
      }
    }

    /** `ResetSet`: back to an undefined type without records. */
    method ResetSet()
      requires Valid()
      modifies this
      ensures Valid() && Value() == SetValue(Undefined, templateId, []) && records == []
    {
      if !isDecoding {
        headerBuffer, length := [0, 0, 0, 0], SET_HEADER;
      }
      setType, records := Undefined, [];
    }

    /** `PrepareSet` on an empty set; an undefined type is refused. */
    method PrepareSet(newType: SetType, id: u16) returns (err: bool)
      requires Valid() && records == []
      modifies this
      ensures Valid() && records == [] && err == (newType == Undefined)
      ensures Value() == if err then old(Value()) else SetValue(newType, id, [])
    {
      err := newType == Undefined;
      if !err {
        setType, templateId := newType, id;
        if !isDecoding {
          headerBuffer := BigEndian(if newType == Template then TEMPLATE_SET_ID else id, 2) + headerBuffer[2..];
        }
      }
    }

    method UpdateLenInHeader()
      requires Valid()
      modifies this`headerBuffer
      ensures Valid()
      ensures !isDecoding && setType != Undefined ==> headerBuffer == SetHeader(Value())
      ensures !isDecoding && setType != Undefined ==>
                FromBigEndian(headerBuffer[2..]) == (4 + |PrintRecords(setType, Value().records)|) % 0x1_0000
    {
      hide Belongs, Printable, PrintRecords, BigEndian;
      if !isDecoding {
        Widths();
        ReadsBack(length % 0x1_0000, 2);
        headerBuffer := headerBuffer[..2] + BigEndian(length % 0x1_0000, 2);
      }
    }

    /** Elements of a data record to be sent must fit their slots; the field count of a data record has sixteen bits. */
    ghost predicate Acceptable(elements: seq<Element>)
      reads this
    {
      setType == Data ==> |elements| <= 0x1_0000 && (!isDecoding ==> AllFit(elements))
    }

    /** `NewDataRecord` or `NewTemplateRecord`, then every element added; the first refused element stops it. */
    method FillRecord(elements: seq<Element>, id: u16) returns (err: bool, record: Record)
      requires setType != Undefined && Acceptable(elements)
      ensures fresh(record)
              && err == (setType == Template && exists i :: 0 <= i < |elements| && !IsValueEmpty(elements[i].value))
      ensures !err ==> Belongs(record, setType, isDecoding) && ValueOf(record) == RecordValue(id, elements)
    {
      hide FitsSlot, IsValueEmpty, RecordLength, RecordBytes, Specifiers, BigEndian, MinLength;
      err := false;
      if setType == Data {
        record := new Record.Data(id, |elements|, isDecoding);
        for i := 0 to |elements|
          invariant record.ValidData() && record.added == elements[..i] && fresh(record)
        {
          record.AddData(elements[i]);
          assert elements[..i + 1] == elements[..i] + [elements[i]];
        }
      } else {
        record := new Record.Template(id, |elements|, isDecoding);
        for i := 0 to |elements|
          invariant record.ValidTemplate() && record.added == elements[..i] && fresh(record)
          invariant forall j :: 0 <= j < i ==> IsValueEmpty(elements[j].value)
        {
          err := record.AddTemplate(elements[i]);
          if err {
            return;
          }
          assert elements[..i + 1] == elements[..i] + [elements[i]];
        }
      }
      assert elements[..|elements|] == elements;
    }

    /** `AddRecord`. */
    method AddRecord(elements: seq<Element>, id: u16) returns (err: bool)
      requires Valid() && Acceptable(elements)
      modifies this
      ensures Valid()
      ensures err == (setType == Undefined
              || (setType == Template && exists i :: 0 <= i < |elements| && !IsValueEmpty(elements[i].value)))
      ensures Value() == if err then old(Value())
              else old(Value()).(records := old(Value()).records + [RecordValue(id, elements)])
      ensures !err ==> records[..|records| - 1] == old(records) && fresh(records[|records| - 1])
    {
      hide IsValueEmpty, Belongs, Printable, PrintRecord, PrintRecords, BigEndian, FitsSlot;
      if setType == Undefined {
        return true;
      }
      var record;
      err, record := FillRecord(elements, id);
      if !err {
        ghost var before := ValuesOf(records);
        records := records + [record];
        length := length + RecordLengthOf(record);
        assert ValuesOf(records) == before + [RecordValue(id, elements)];
        if !isDecoding {
          OneMore(setType, before, RecordValue(id, elements));
        }
      }
    }

    static lemma OneMore(t: SetType, rs: seq<RecordValue>, r: RecordValue)
      requires AllPrintable(t, rs) && Printable(t, r)
      ensures AllPrintable(t, rs + [r])
      ensures |PrintRecords(t, rs + [r])| == |PrintRecords(t, rs)| + |PrintRecord(t, r)|
    {
      hide PrintRecord, Printable;
      assert [r][1..] == [] && AllPrintable(t, [r]);
      PrintRecordsAppend(t, rs, [r]);
    }

    /** `GetRecordLength`. */
    function RecordLengthOf(r: Record): (n: nat)
      requires Belongs(r, setType, isDecoding) && setType != Undefined
      reads this, r
      ensures !isDecoding ==> Printable(setType, ValueOf(r)) && n == |PrintRecord(setType, ValueOf(r))|
    {
      if r.isTemplate then |r.buffer| else r.len
    }
  }

  // ---------- messages ----------

  /** `Message`, as far as its header goes: every setter of a message to be sent writes its own bytes of the header. */
  class Message {
    const isDecoding: bool
    const msgHeader: array<byte>
    var version: u16
    var length: u16
    var seqNumber: u32
    var obsDomainId: u32
    var exportTime: u32

    /** The header bytes say what the fields say. */
    ghost predicate Valid()
      reads this, msgHeader
    {
      && msgHeader.Length == MESSAGE_HEADER
      && (!isDecoding ==>
            msgHeader[..] ==
            BigEndian(version, 2) + BigEndian(length, 2) + BigEndian(exportTime, 4) + BigEndian(seqNumber, 4) +
              BigEndian(obsDomainId, 4))
    }

    /** `NewMessage`. */
    constructor (isDecoding: bool)
      ensures Valid() && this.isDecoding == isDecoding && fresh(msgHeader)
    {
      this.isDecoding, msgHeader := isDecoding, new byte[MESSAGE_HEADER](i => 0);
      version, length, seqNumber, obsDomainId, exportTime := 0, 0, 0, 0, 0;
    }

    method SetVersion(v: u16)
      requires Valid()
      modifies this`version, msgHeader
      ensures Valid() && version == v
    {
      hide BigEndian;
      Widths();
      version := v;
      if !isDecoding {
        PutBigEndian(msgHeader, 0, v, 2);
      }
    }

    method SetMessageLen(n: u16)
      requires Valid()
      modifies this`length, msgHeader
      ensures Valid() && length == n
    {
      hide BigEndian;
      Widths();
      length := n;
      if !isDecoding {
        PutBigEndian(msgHeader, 2, n, 2);
      }
    }

    method SetExportTime(t: u32)
      requires Valid()
      modifies this`exportTime, msgHeader
      ensures Valid() && exportTime == t
    {
      hide BigEndian;
      Widths();
      exportTime := t;
      if !isDecoding {
        PutBigEndian(msgHeader, 4, t, 4);
      }
    }

    method SetSequenceNum(n: u32)
      requires Valid()
      modifies this`seqNumber, msgHeader
      ensures Valid() && seqNumber == n
    {
      hide BigEndian;
      Widths();
      seqNumber := n;
      if !isDecoding {
        PutBigEndian(msgHeader, 8, n, 4);
      }
    }

    method SetObsDomainId(n: u32)
      requires Valid()
      modifies this`obsDomainId, msgHeader
      ensures Valid() && obsDomainId == n
    {
      hide BigEndian;
      Widths();
      obsDomainId := n;
      if !isDecoding {
        PutBigEndian(msgHeader, 12, n, 4);
      }
    }
  }

  lemma OneMorePrinted(t: SetType, rs: seq<RecordValue>, i: nat)
    requires AllPrintable(t, rs) && i < |rs|
    ensures PrintRecords(t, rs[..i + 1]) == PrintRecords(t, rs[..i]) + PrintRecord(t, rs[i])
    ensures |PrintRecords(t, rs[..i + 1])| <= |PrintRecords(t, rs)|
  {
    hide PrintRecord, Printable;
    assert [rs[i]][1..] == [] && rs[..i] + [rs[i]] == rs[..i + 1];
    PrintRecordsAppend(t, rs[..i], [rs[i]]);
    assert rs == rs[..i + 1] + rs[i + 1..];
    PrintRecordsAppend(t, rs[..i + 1], rs[i + 1..]);
  }

  lemma NothingPrinted(t: SetType)
    ensures PrintRecords(t, []) == []
  {
  }

  lemma Extended(before: seq<byte>, at: nat, b: seq<byte>)
    requires at + |b| <= |before|
    ensures Splice(before, at, b)[..at + |b|] == before[..at] + b
  {
  }

  /** The header of a message of `length` bytes, set field by field. */
  method NewHeader(length: u16, domain: u32, seqNumber: u32, time: u32) returns (header: seq<byte>)
    ensures header == MessageHeader(length, time, seqNumber, domain)
  {
    hide BigEndian;
    var msg := new Message(false);
    msg.SetVersion(VERSION);
    msg.SetObsDomainId(domain);
    msg.SetMessageLen(length);
    msg.SetExportTime(time);
    msg.SetSequenceNum(seqNumber);
    header := msg.msgHeader[..];
  }

  /** The buffer of one record, which may be encoded and cached now, but no value changes. */
  method BufferAt(s: RecordSet, i: nat) returns (b: seq<byte>)
    requires s.Valid() && !s.isDecoding && s.setType != Undefined && i < |s.records|
    modifies s.records
    ensures s.Valid() && ValuesOf(s.records) == old(ValuesOf(s.records))
    ensures b == PrintRecord(s.setType, ValuesOf(s.records)[i])
  {
    hide Printable, PrintRecord, PrintRecords, BigEndian, Belongs;
    ghost var vs := ValuesOf(s.records);
    b := GetBuffer(s.records[i], s.setType);
    forall k | 0 <= k < |s.records| ensures Belongs(s.records[k], s.setType, s.isDecoding)
      && ValueOf(s.records[k]) == vs[k] {
      if s.records[k] != s.records[i] {
        assert unchanged(s.records[k]);
      }
    }
    assert ValuesOf(s.records) == vs;
  }

  /** Every record's buffer is copied behind the headers, one after the other. */
  method CopyRecords(s: RecordSet, bytes: array<byte>)
    requires s.Valid() && !s.isDecoding && bytes.Length == MESSAGE_HEADER + s.length
    modifies bytes, s.records
    ensures s.Valid() && ValuesOf(s.records) == old(ValuesOf(s.records))
    ensures bytes[..] == old(bytes[..MESSAGE_HEADER + SET_HEADER]) + PrintRecords(s.setType, ValuesOf(s.records))
  {
    hide Belongs, Printable, PrintRecord, PrintRecords, BigEndian, Splice;
    ghost var vs := ValuesOf(s.records);
    var index := MESSAGE_HEADER + SET_HEADER;
    NothingPrinted(s.setType);
    assert vs[..0] == [];
    for i := 0 to |s.records|
      invariant s.Valid() && ValuesOf(s.records) == vs
      invariant index == MESSAGE_HEADER + SET_HEADER + |PrintRecords(s.setType, vs[..i])| <= bytes.Length
      invariant bytes[..index] == old(bytes[..MESSAGE_HEADER + SET_HEADER]) + PrintRecords(s.setType, vs[..i])
    {
      OneMorePrinted(s.setType, vs, i);
      var n := s.RecordLengthOf(s.records[i]);
      var b := BufferAt(s, i);
      ghost var before := bytes[..];
      Copy(bytes, index, b);
      Extended(before, index, b);
      index := index + n;
    }
    assert vs[..|vs|] == vs;
  }

  /** A slice of the message's length that starts with the two headers. */
  method StartMessage(length: nat, header: seq<byte>, setHeader: seq<byte>) returns (bytes: array<byte>)
    requires |header| + |setHeader| <= length
    ensures fresh(bytes) && bytes.Length == length && bytes[..|header| + |setHeader|] == header + setHeader
  {
    bytes := new byte[length](i => 0);
    ghost var zeros := bytes[..];
    Copy(bytes, 0, header);
    Extended(zeros, 0, header);
    Extended(bytes[..], |header|, setHeader);
    Copy(bytes, |header|, setHeader);
  }

  /** `CreateIPFIXMsg`: the two headers and every record's buffer copied into one slice, or null if that would be too
      long. With a set header whose length is up to date that is the message of the set. */
  method CreateIPFIXMsg(s: RecordSet, domain: u32, seqNumber: u32, time: u32) returns (bytes: array?<byte>)
    requires s.Valid() && !s.isDecoding
    modifies s.records
    ensures s.Valid() && s.Value() == old(s.Value())
    ensures var length := MESSAGE_HEADER + SetLength(s.Value());
            if length > MAX_MESSAGE then bytes == null
            else
              && bytes != null
              && bytes[..] ==
                 MessageHeader(length, time, seqNumber, domain) + s.headerBuffer +
                   PrintRecords(s.setType, s.Value().records)
    ensures s.headerBuffer == SetHeader(s.Value()) ==>
              match CreateMessage(s.Value(), domain, seqNumber, time)
              case Ok(m) => bytes != null && bytes[..] == m
              case _ => bytes == null
  {
    hide Belongs, Printable, PrintRecord, PrintRecords, BigEndian, MessageHeader, SetHeader, Splice;
    var msgLen := MESSAGE_HEADER + s.length;
    if msgLen > MAX_MESSAGE {
      return null;
    }
    var header := NewHeader(msgLen, domain, seqNumber, time);
    bytes := StartMessage(msgLen, header, s.headerBuffer);
    CopyRecords(s, bytes);
  }
}
