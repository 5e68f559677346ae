/** The collecting process: decoders that consume a buffer in loops, and the templates learnt so far for every
    domain. */
module Collecting {
  import opened Bytes
  import opened Elements
  import opened Wire
  import opened Parse
  import Messages

  /** The part of `bytes.Buffer` that decoding uses. */
  class ByteBuffer {
    var data: seq<byte>

    constructor (data: seq<byte>)
      ensures this.data == data
    {
      this.data := data;
    }

    /** A zero at the end of the buffer. */
    method ReadByte() returns (b: byte)
      modifies this
      ensures if old(data) == [] then b == 0 && data == [] else [b] + data == old(data)
    {
      b := 0;
      if data != [] {
        b, data := data[0], data[1..];
      }
    }

    method Take(n: nat) returns (taken: seq<byte>)
      modifies this
      ensures (taken, data) == Next(old(data), n)
    {
      if n <= |data| {
        taken, data := data[..n], data[n..];
      } else {
        taken, data := data, [];
      }
    }

    /** `util.Decode` of one unsigned number of `w` bytes: too short a buffer is used up and gives an error. */
    method Decode(w: nat) returns (n: nat, err: bool)
      modifies this
      ensures err == (|old(data)| < w)
      ensures if err then n == 0 && data == [] else n == FromBigEndian(old(data)[..w]) && data == old(data)[w..]
    {
      err := |data| < w;
      if err {
        n, data := 0, [];
      } else {
        n, data := FromBigEndian(data[..w]), data[w..];
      }
    }
  }

  /** `getFieldLength`. */
  method GetFieldLength(buf: ByteBuffer) returns (n: nat)
    modifies buf
    ensures (n, buf.data) == AnnouncedLength(old(buf.data))
  {
    hide FromBigEndian;
    var oneByte := buf.ReadByte();
    if oneByte < 255 {
      return oneByte;
    }
    assert old(buf.data)[1..] == buf.data;
    assert |buf.data| >= 2 ==> old(buf.data)[1..3] == buf.data[..2];
    var err;
    n, err := buf.Decode(2);
  }

  // ---------- one data record ----------

  /** The elements already decoded in front of what decoding the rest gives. */
  function After<T>(done: seq<T>, r: Outcome<(seq<T>, seq<byte>)>): Outcome<(seq<T>, seq<byte>)> {
    if r.Ok? then Ok((done + r.value.0, r.value.1)) else r
  }

  lemma AfterNothing<T>(r: Outcome<(seq<T>, seq<byte>)>)
    ensures After([], r) == r
  {
    if r.Ok? {
      assert [] + r.value.0 == r.value.0;
    }
  }

  lemma ReadRecordStep(template: seq<InfoElement>, i: nat, done: seq<Element>, buf: seq<byte>)
    requires i < |template|
    ensures var (e, rest) := ReadElement(template[i], buf);
            After(done, ReadRecord(template[i..], buf)) ==
            if e.Ok? then After(done + [e.value], ReadRecord(template[i + 1..], rest)) else e.PropagateFailure()
  {
    hide ReadElement;
    assert template[i..][1..] == template[i + 1..];
    var (e, rest) := ReadElement(template[i], buf);
    if e.Ok? {
      var more := ReadRecord(template[i + 1..], rest);
      if more.Ok? {
        Associates(done, [e.value], more.value.0);
      }
    }
  }

  /** The inner loop of `decodeDataSet`. */
  method DecodeRecord(template: seq<InfoElement>, buf: ByteBuffer) returns (r: Outcome<seq<Element>>)
    modifies buf
    ensures var e := ReadRecord(template, old(buf.data));
            if e.Ok? then r == Ok(e.value.0) && buf.data == e.value.1 else r == e.PropagateFailure()
  {
    hide Elements.Decode, AnnouncedLength, ReadRecord;
    var elements := [];
    assert template[0..] == template;
    AfterNothing(ReadRecord(template, buf.data));
    for i := 0 to |template|
      invariant ReadRecord(template, old(buf.data)) == After(elements, ReadRecord(template[i..], buf.data))
    {
      ReadRecordStep(template, i, elements, buf.data);
      var ie := template[i];
      var length := ie.len;
      if ie.len == VARIABLE_LENGTH {
        length := GetFieldLength(buf);
      }
      var bytes := buf.Take(length);
      var value :- Elements.Decode(ie.dataType, bytes);
      elements := elements + [Element(ie, value)];
    }
    NothingLeft(template[|template|..], buf.data);
    assert elements + [] == elements;
    r := Ok(elements);
  }

  lemma NothingLeft(template: seq<InfoElement>, buf: seq<byte>)
    requires template == []
    ensures ReadRecord(template, buf) == Ok(([], buf))
  {
  }

  // ---------- one template record ----------

  lemma ReadSpecifiersStep(reg: Index, buf: seq<byte>, n: nat, done: seq<Element>)
    requires n > 0
    ensures var s := ReadSpecifier(reg, buf);
            After(done, ReadSpecifiers(reg, buf, n)) ==
            if !s.Ok? then s.PropagateFailure()
            else
              var v := ZeroValue(s.value.0.dataType);
              if v.Ok? then After(done + [Element(s.value.0, v.value)], ReadSpecifiers(reg, s.value.1, n - 1))
              else v.PropagateFailure()
  {
    hide ReadSpecifier, ZeroValue;
    var s := ReadSpecifier(reg, buf);
    if s.Ok? && ZeroValue(s.value.0.dataType).Ok? {
      var more := ReadSpecifiers(reg, s.value.1, n - 1);
      if more.Ok? {
        Associates(done, [Element(s.value.0, ZeroValue(s.value.0.dataType).value)], more.value.0);
      }
    }
  }

  /** One field specifier: id and length, and behind the enterprise bit the enterprise number. */
  method DecodeSpecifier(reg: Index, buf: ByteBuffer) returns (r: Outcome<InfoElement>)
    modifies buf
    ensures var e := ReadSpecifier(reg, old(buf.data));
            if e.Ok? then r == Ok(e.value.0) && buf.data == e.value.1 else r == e.PropagateFailure()
  {
    hide FromBigEndian;
    Widths();
    ghost var was := buf.data;
    var id := buf.Take(2);
    var _, err := buf.Decode(2);
    if err || |id| < 2 {
      return Error;
    }
    assert id == was[..2] && buf.data == was[4..];
    if id[0] < 128 {
      WritesBack(id);
      r := Lookup(reg, 0, FromBigEndian(id));
    } else {
      var enterprise, short := buf.Decode(4);
      if short {
        return Error;
      }
      assert was[4..][..4] == was[4..8] && was[4..][4..] == was[8..];
      WritesBack(was[4..8]);
      WritesBack([id[0] - 128, id[1]]);
      r := Lookup(reg, enterprise, FromBigEndian([id[0] - 128, id[1]]));
    }
  }

  /** The loop of `decodeTemplateSet`. */
  method DecodeSpecifiers(reg: Index, n: nat, buf: ByteBuffer) returns (r: Outcome<seq<Element>>)
    modifies buf
    ensures var e := ReadSpecifiers(reg, old(buf.data), n);
            if e.Ok? then r == Ok(e.value.0) && buf.data == e.value.1 else r == e.PropagateFailure()
  {
    hide ReadSpecifier, ReadSpecifiers, ZeroValue;
    var elements := [];
    AfterNothing(ReadSpecifiers(reg, buf.data, n));
    for i := 0 to n
      invariant ReadSpecifiers(reg, old(buf.data), n) == After(elements, ReadSpecifiers(reg, buf.data, n - i))
    {
      ReadSpecifiersStep(reg, buf.data, n - i, elements);
      var ie :- DecodeSpecifier(reg, buf);
      var value :- ZeroValue(ie.dataType);
      elements := elements + [Element(ie, value)];
    }
    NoSpecifiers(reg, buf.data);
    assert elements + [] == elements;
    r := Ok(elements);
  }

  lemma NoSpecifiers(reg: Index, buf: seq<byte>)
    ensures ReadSpecifiers(reg, buf, 0) == Ok(([], buf))
  {
  }

  lemma {:induction false} SpecifiersAreEmpty(reg: Index, buf: seq<byte>, n: nat)
    ensures var r := ReadSpecifiers(reg, buf, n);
            r.Ok? ==> |r.value.0| == n && forall i :: 0 <= i < n ==> IsValueEmpty(r.value.0[i].value)
    decreases n
  {
    hide ReadSpecifier;
    if n > 0 && ReadSpecifiers(reg, buf, n).Ok? {
      SpecifiersAreEmpty(reg, ReadSpecifier(reg, buf).value.1, n - 1);
    }
  }

  // ---------- the process ----------

  lemma ReadRecordsStep(template: seq<InfoElement>, done: seq<seq<Element>>, buf: seq<byte>)
    requires buf != []
    ensures var one := ReadRecord(template, buf);
            Ahead(done, ReadRecords(template, buf)) ==
            if !one.Ok? then one.PropagateFailure()
            else if |one.value.1| == |buf| then Diverges
            else Ahead(done + [one.value.0], ReadRecords(template, one.value.1))
  {
    hide ReadRecord;
    var one := ReadRecord(template, buf);
    if one.Ok? && |one.value.1| != |buf| {
      var more := ReadRecords(template, one.value.1);
      if more.Ok? {
        Associates(done, [one.value.0], more.value);
      }
    }
  }

  /** The records already decoded in front of what decoding the rest gives. */
  function Ahead(done: seq<seq<Element>>, r: Outcome<seq<seq<Element>>>): Outcome<seq<seq<Element>>> {
    if r.Ok? then Ok(done + r.value) else r
  }

  class CollectingProcess {
    const registry: Index
    var templatesMap: Templates
    var numOfRecordsReceived: u64

    ghost function Abs(): Collector
      reads this
    {
      Collector(templatesMap, numOfRecordsReceived)
    }

    /** Templates came from field counts of sixteen bits. */
    ghost predicate Valid()
      reads this
    {
      forall d, id :: TemplateOf(templatesMap, d, id).Some? ==> |TemplateOf(templatesMap, d, id).value| < 0x1_0000
    }

    constructor (registry: Index)
      ensures Valid() && Abs() == Collector(map[], 0) && this.registry == registry
    {
      this.registry, templatesMap, numOfRecordsReceived := registry, map[], 0;
    }

    /** `addTemplate`, over a connection whose templates do not expire. */
    method AddTemplate(domain: u32, id: u16, elements: seq<Element>)
      modifies this`templatesMap
      ensures templatesMap == Parse.AddTemplate(old(templatesMap), domain, id, Ies(elements))
    {
      if domain !in templatesMap {
        templatesMap := templatesMap[domain := map[]];
      }
      var ies := [];
      for i := 0 to |elements|
        invariant ies == Ies(elements)[..i]
      {
        ies := ies + [elements[i].ie];
      }
      assert Ies(elements)[..|elements|] == Ies(elements);
      var inner: map<u16, seq<InfoElement>> := templatesMap[domain];
      inner := inner[id := ies];
      templatesMap := templatesMap[domain := inner];
    }

    /** `decodeTemplateSet`: only a whole template is remembered. */
    method DecodeTemplateSet(buf: ByteBuffer, domain: u32) returns (r: Outcome<Messages.RecordSet>)
      requires Valid()
      modifies buf, this`templatesMap
      ensures Valid()
      ensures var t := ReadTemplate(registry, old(buf.data));
              if t.Ok? then
                && r.Ok? && Decoded(r.value, SetValue(Template, t.value.templateId, [t.value]))
                && templatesMap == Parse.AddTemplate(old(templatesMap), domain, t.value.templateId,
                   Ies(t.value.elements))
              else r == t.PropagateFailure() && templatesMap == old(templatesMap)
    {
      hide FromBigEndian, ReadSpecifiers, IsValueEmpty, Messages.Belongs, Parse.AddTemplate;
      Widths();
      ghost var was := buf.data;
      var id, short := buf.Decode(2);
      var fieldCount, short' := buf.Decode(2);
      if short || short' {
        return Error;
      }
      WritesBack(was[..2]);
      assert was[2..][..2] == was[2..4] && buf.data == was[4..];
      WritesBack(was[2..4]);
      var s := new Messages.RecordSet(Template, id, true);
      SpecifiersAreEmpty(registry, buf.data, fieldCount);
      var elements :- DecodeSpecifiers(registry, fieldCount, buf);
      var err := s.AddRecord(elements, id);
      AddTemplate(domain, id, elements);
      r := Ok(s);
    }

    /** `decodeDataSet`. Where an iteration consumes nothing the code repeats it for ever, and so says the result. */
    method DecodeDataSet(buf: ByteBuffer, domain: u32, id: u16) returns (r: Outcome<Messages.RecordSet>)
      requires Valid()
      modifies buf
      ensures match TemplateOf(templatesMap, domain, id)
              case None => r == Error
              case Some(template) =>
                var rs := ReadRecords(template, old(buf.data));
                if rs.Ok? then r.Ok? && Decoded(r.value, SetValue(Data, id, WithId(id, rs.value)))
                else r == rs.PropagateFailure()
    {
      hide ReadRecord, ReadRecords, Messages.Belongs;
      if domain !in templatesMap || id !in templatesMap[domain] {
        return Error;
      }
      var template := templatesMap[domain][id];
      assert TemplateOf(templatesMap, domain, id) == Some(template);
      var s := new Messages.RecordSet(Data, id, true);
      ghost var done: seq<seq<Element>> := [];
      assert WithId(id, done) == [];
      while |buf.data| > 0
        invariant fresh(s) && Decoded(s, SetValue(Data, id, WithId(id, done)))
        invariant Ahead([], ReadRecords(template, old(buf.data))) == Ahead(done, ReadRecords(template, buf.data))
        decreases |buf.data|
      {
        ghost var was := buf.data;
        ReadRecordsStep(template, done, was);
        var before := |buf.data|;
        var elements :- DecodeRecord(template, buf);
        if |buf.data| == before {
          return Diverges;
        }
        RecordHasAll(template, was);
        var err := s.AddRecord(elements, id);
        assert WithId(id, done + [elements]) == WithId(id, done) + [RecordValue(id, elements)];
        done := done + [elements];
      }
      assert buf.data == [];
      NoRecords(template, done, ReadRecords(template, old(buf.data)));
      r := Ok(s);
    }

    /** The message and set headers, in the order in which they stand. */
    method DecodeHeaders(buf: ByteBuffer)
        returns (err: bool, version: u16, length: u16, time: u32, seqNumber: u32, domain: u32, setId: u16)
      modifies buf
      ensures err == (|old(buf.data)| < MESSAGE_HEADER + SET_HEADER)
      ensures !err ==>
                && version == U16At(old(buf.data), 0) && length == U16At(old(buf.data), 2)
                   && time == U32At(old(buf.data), 4)
                && seqNumber == U32At(old(buf.data), 8) && domain == U32At(old(buf.data), 12)
                   && setId == U16At(old(buf.data), 16)
                && buf.data == old(buf.data)[20..]
    {
      hide FromBigEndian;
      Widths();
      ghost var p := buf.data;
      err, version, length, time, seqNumber, domain, setId := |buf.data| < MESSAGE_HEADER + SET_HEADER, 0, 0, 0, 0, 0,
        0;
      if err {
        return;
      }
      WritesBack(p[0..2]);
      WritesBack(p[2..4]);
      WritesBack(p[4..8]);
      WritesBack(p[8..12]);
      WritesBack(p[12..16]);
      WritesBack(p[16..18]);
      version, err := buf.Decode(2);
      assert buf.data == p[2..] && buf.data[..2] == p[2..4];
      length, err := buf.Decode(2);
      assert buf.data == p[4..] && buf.data[..4] == p[4..8];
      time, err := buf.Decode(4);
      assert buf.data == p[8..] && buf.data[..4] == p[8..12];
      seqNumber, err := buf.Decode(4);
      assert buf.data == p[12..] && buf.data[..4] == p[12..16];
      domain, err := buf.Decode(4);
      assert buf.data == p[16..] && buf.data[..2] == p[16..18];
      setId, err := buf.Decode(2);
      assert buf.data == p[18..];
      var setLen;
      setLen, err := buf.Decode(2);
    }

    /** The set behind the headers. */
    method DecodeSet(buf: ByteBuffer, domain: u32, setId: u16) returns (r: Outcome<Messages.RecordSet>)
      requires Valid()
      modifies buf, this`templatesMap
      ensures Valid()
      ensures var e := Parse.DecodeSet(registry, old(Abs()), domain, setId, old(buf.data));
              if e.Ok? then Abs() == e.value.0 && r.Ok? && Decoded(r.value, e.value.1)
              else Abs() == old(Abs()) && r == e.PropagateFailure()
    {
      hide ReadTemplate, ReadRecords, TemplateOf, Parse.AddTemplate, Decoded;
      if setId == TEMPLATE_SET_ID {
        r := DecodeTemplateSet(buf, domain);
      } else {
        r := DecodeDataSet(buf, domain, setId);
      }
    }

    /** `decodePacket`: the message handed on, with its set, and the templates learnt; on any failure nothing is learnt
        or counted. */
    method DecodePacket(buf: ByteBuffer) returns (r: Outcome<(Messages.Message, Messages.RecordSet)>)
      requires Valid()
      modifies buf, this
      ensures Valid()
      ensures var (after, m) := Parse.DecodePacket(registry, old(Abs()), old(buf.data));
              && Abs() == after
              && if m.Ok? then r.Ok? && Carries(r.value.0, m.value) && Decoded(r.value.1, m.value.contents)
                 else r == m.PropagateFailure()
    {
      hide U16At, U32At, Parse.DecodeSet, Decoded, TemplateOf;
      var err, version, length, time, seqNumber, domain, setId := DecodeHeaders(buf);
      if err || version != VERSION {
        return Error;
      }
      var msg := NewMessage(version, length, time, seqNumber, domain);
      var s :- DecodeSet(buf, domain, setId);
      numOfRecordsReceived := (numOfRecordsReceived + 1) % 0x1_0000_0000_0000_0000;
      r := Ok((msg, s));
    }
  }

  method NewMessage(version: u16, length: u16, time: u32, seqNumber: u32, domain: u32) returns (msg: Messages.Message)
    ensures fresh(msg) && msg.version == version && msg.length == length && msg.exportTime == time
    ensures msg.seqNumber == seqNumber && msg.obsDomainId == domain
  {
    msg := new Messages.Message(true);
    msg.SetVersion(version);
    msg.SetMessageLen(length);
    msg.SetExportTime(time);
    msg.SetSequenceNum(seqNumber);
    msg.SetObsDomainId(domain);
  }

  /** The fields of the message object are those of the message value. */
  ghost predicate Carries(msg: Messages.Message, m: Message)
    reads msg
  {
    && msg.version == m.version && msg.length == m.length && msg.exportTime == m.time
    && msg.seqNumber == m.seqNumber && msg.obsDomainId == m.domain
  }

  /** A set that was decoded, and its value. */
  ghost predicate Decoded(s: Messages.RecordSet, v: SetValue)
    reads s, s.records
  {
    s.Valid() && s.isDecoding && s.Value() == v
  }

  lemma NoRecords(template: seq<InfoElement>, done: seq<seq<Element>>, all: Outcome<seq<seq<Element>>>)
    ensures Ahead(done, ReadRecords(template, [])) == Ok(done) && Ahead([], all) == all
  {
    assert done + [] == done;
    if all.Ok? {
      assert [] + all.value == all.value;
    }
  }

  lemma {:induction false} RecordHasAll(template: seq<InfoElement>, buf: seq<byte>)
    ensures ReadRecord(template, buf).Ok? ==> Ies(ReadRecord(template, buf).value.0) == template
  {
    if template != [] {
      RecordHasAll(template[1..], ReadElement(template[0], buf).1);
    }
  }
}
