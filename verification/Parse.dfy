/**
  How the collector reads a message back, and that it reads back what was printed. Reading past
  the end of a buffer is an error or a panic exactly where the code has one.
 */
module Parse {
  import opened Bytes
  import opened Elements
  import opened Wire

  /** Enterprise number and element id to information element, as the registry's index by id. */
  type Index = map<u32, map<u16, InfoElement>>

  function Lookup(reg: Index, enterpriseId: u32, elementId: u16): Outcome<InfoElement> {
    if enterpriseId !in reg || elementId !in reg[enterpriseId] then Error else Ok(reg[enterpriseId][elementId])
  }

  // ---------- data sets ----------

  /** One data record, element by element, and the rest of the buffer. */
  function ReadRecord(template: seq<InfoElement>, buf: seq<byte>): (r: Outcome<(seq<Element>, seq<byte>)>)
    ensures r.Ok? ==> |r.value.1| <= |buf|
  {
    if template == [] then Ok(([], buf))
    else
      var (e, after) := ReadElement(template[0], buf);
      var el :- e;
      var (els, rest) :- ReadRecord(template[1..], after);
      Ok(([el] + els, rest))
  }

  /** Records until the buffer is empty. An iteration that consumes nothing repeats for ever. */
  function ReadRecords(template: seq<InfoElement>, buf: seq<byte>): Outcome<seq<seq<Element>>>
    decreases |buf|
  {
    if buf == [] then Ok([])
    else
      var (els, rest) :- ReadRecord(template, buf);
      if |rest| == |buf| then Diverges
      else
        var more :- ReadRecords(template, rest);
        Ok([els] + more)
  }

  /** A record whose elements can all be encoded. */
  predicate AllEncodable(es: seq<Element>) {
    forall i :: 0 <= i < |es| ==> Encodable(es[i])
  }

  function CanonicalRecord(es: seq<Element>): (cs: seq<Element>)
    requires AllEncodable(es)
    ensures |cs| == |es|
  {
    seq(|es|, i requires 0 <= i < |es| => Canonical(es[i]))
  }

  lemma EncodableFits(e: Element)
    requires Encodable(e)
    ensures FitsSlot(e) && Slot(e) == Written(e).value && |Slot(e)| >= 1
  {
    hide Written;
    EncodableFillsSlot(e);
    assert Written(e).value + Zeros(0) == Written(e).value;
  }

  /** Whatever follows, a printed record is read back element by element with exactly its own bytes consumed. */
  lemma {:induction false} RecordRoundTrip(es: seq<Element>, rest: seq<byte>)
    requires AllEncodable(es)
    ensures AllFit(es) && ReadRecord(Ies(es), RecordBytes(es) + rest) == Ok((CanonicalRecord(es), rest))
  {
    hide Encodable, Canonical, FitsSlot, Slot, Written, ReadElement;
    forall i | 0 <= i < |es|
      ensures FitsSlot(es[i])
    {
      EncodableFits(es[i]);
    }
    if es == [] {
      assert RecordBytes(es) + rest == rest && Ies(es) == [] && CanonicalRecord(es) == [];
    } else {
      var tail := RecordBytes(es[1..]) + rest;
      RecordRoundTrip(es[1..], rest);
      EncodableFits(es[0]);
      ElementRoundTrip(es[0], tail);
      Associates(Slot(es[0]), RecordBytes(es[1..]), rest);
      assert Ies(es)[1..] == Ies(es[1..]);
      assert CanonicalRecord(es) == [Canonical(es[0])] + CanonicalRecord(es[1..]);
    }
  }

  /** A record that conforms to a template: the template's elements in order, each with an encodable value. */
  predicate Conforms(template: seq<InfoElement>, es: seq<Element>) {
    Ies(es) == template && AllEncodable(es)
  }

  lemma {:induction false} RecordNotEmpty(es: seq<Element>)
    requires AllEncodable(es) && es != []
    ensures RecordLength(es) >= |es|
  {
    hide Encodable;
    EncodableFits(es[0]);
    if |es| > 1 {
      RecordNotEmpty(es[1..]);
    }
  }

  predicate AllConform(template: seq<InfoElement>, rs: seq<RecordValue>) {
    forall i :: 0 <= i < |rs| ==> Conforms(template, rs[i].elements)
  }

  function CanonicalRecords(rs: seq<RecordValue>): (cs: seq<seq<Element>>)
    requires forall i :: 0 <= i < |rs| ==> AllEncodable(rs[i].elements)
    ensures |cs| == |rs|
  {
    if rs == [] then [] else [CanonicalRecord(rs[0].elements)] + CanonicalRecords(rs[1..])
  }

  /** Printed conforming records of a non-empty template are read back one by one, each iteration shrinking the
      buffer. */
  lemma {:induction false} RecordsRoundTrip(template: seq<InfoElement>, rs: seq<RecordValue>)
    requires template != [] && AllConform(template, rs)
    ensures AllPrintable(Data, rs)
    ensures ReadRecords(template, PrintRecords(Data, rs)) == Ok(CanonicalRecords(rs))
  {
    hide AllEncodable, CanonicalRecord, AllFit, ReadRecord;
    forall i | 0 <= i < |rs|
      ensures Printable(Data, rs[i])
    {
      RecordRoundTrip(rs[i].elements, []);
    }
    if rs != [] {
      var es, rest := rs[0].elements, PrintRecords(Data, rs[1..]);
      RecordRoundTrip(es, rest);
      RecordNotEmpty(es);
      RecordsRoundTrip(template, rs[1..]);
      assert |RecordBytes(es) + rest| > |rest|;
    }
  }

  // ---------- only conforming records are read back ----------

  /** The same value; addresses may travel in another form. */
  predicate SameValue(a: Value, b: Value) {
    a == b || (a.IP? && b.IP? && To16(a.ip).Some? && To16(a.ip) == To16(b.ip))
  }

  predicate SameElements(a: seq<Element>, b: seq<Element>) {
    |a| == |b| && forall i :: 0 <= i < |a| ==> a[i].ie == b[i].ie && SameValue(a[i].value, b[i].value)
  }

  predicate AllDescribed(ies: seq<InfoElement>) {
    forall i :: 0 <= i < |ies| ==> WellDescribed(ies[i])
  }

  /** What is read where an element was printed has the element's value only if the element can be encoded. */
  lemma OnlyEncodable(e: Element, rest: seq<byte>)
    requires WellDescribed(e.ie) && FitsSlot(e)
    ensures var r := ReadElement(e.ie, Slot(e) + rest).0; r.Ok? && SameValue(r.value.value, e.value) ==> Encodable(e)
  {
    hide BigEndian, FromBigEndian, Uint;
    var buf := Slot(e) + rest;
    assert e.ie.dataType == MacAddress ==> |Next(buf, 6).0| == 6;
    assert e.ie.dataType == Ipv4Address && To4(e.value.ip).None? ==> buf[..4] == Zeros(4);
  }

  lemma {:induction false} OnlyEncodableRecord(es: seq<Element>, rest: seq<byte>)
    requires AllDescribed(Ies(es)) && AllFit(es)
    requires var r := ReadRecord(Ies(es), RecordBytes(es) + rest); r.Ok? && SameElements(r.value.0, es)
    ensures AllEncodable(es)
  {
    hide Encodable, FitsSlot, Slot, Written, ReadElement, WellDescribed, SameValue;
    if es != [] {
      var tail := RecordBytes(es[1..]) + rest;
      Associates(Slot(es[0]), RecordBytes(es[1..]), rest);
      assert Ies(es)[1..] == Ies(es[1..]) && Ies(es)[0] == es[0].ie;
      var r := ReadRecord(Ies(es), RecordBytes(es) + rest).value.0;
      assert r[0] == ReadElement(es[0].ie, Slot(es[0]) + tail).0.value;
      OnlyEncodable(es[0], tail);
      EncodableFits(es[0]);
      ElementRoundTrip(es[0], tail);
      assert SameElements(r[1..], es[1..]);
      OnlyEncodableRecord(es[1..], rest);
    }
  }

  lemma {:induction false} ReadsTemplate(template: seq<InfoElement>, buf: seq<byte>)
    ensures var r := ReadRecord(template, buf); r.Ok? ==> Ies(r.value.0) == template
  {
    hide Decode, AnnouncedLength;
    if template != [] {
      ReadsTemplate(template[1..], ReadElement(template[0], buf).1);
    }
  }

  predicate SameRecords(out: seq<seq<Element>>, rs: seq<RecordValue>) {
    |out| == |rs| && forall i :: 0 <= i < |rs| ==> SameElements(out[i], rs[i].elements)
  }

  /** Printed records that are read back with their elements and values conform to the template. */
  lemma {:induction false} OnlyConforming(template: seq<InfoElement>, rs: seq<RecordValue>)
    requires AllDescribed(template) && AllPrintable(Data, rs)
    requires var r := ReadRecords(template, PrintRecords(Data, rs)); r.Ok? && SameRecords(r.value, rs)
    ensures AllConform(template, rs)
  {
    hide AllEncodable, AllFit, ReadRecord, SameElements, AllDescribed;
    if rs != [] {
      var es, rest := rs[0].elements, PrintRecords(Data, rs[1..]);
      var out := ReadRecords(template, RecordBytes(es) + rest).value;
      assert RecordBytes(es) + rest != [];
      ReadsTemplate(template, RecordBytes(es) + rest);
      SameIes(out[0], es);
      OnlyEncodableRecord(es, rest);
      RecordRoundTrip(es, rest);
      assert SameRecords(out[1..], rs[1..]);
      OnlyConforming(template, rs[1..]);
    }
  }

  lemma SameIes(a: seq<Element>, b: seq<Element>)
    requires SameElements(a, b)
    ensures Ies(a) == Ies(b)
  {
  }

  lemma {:induction false} CanonicalIsSame(rs: seq<RecordValue>)
    requires forall i :: 0 <= i < |rs| ==> AllEncodable(rs[i].elements)
    ensures SameRecords(CanonicalRecords(rs), rs)
  {
    hide AllEncodable, SameElements, CanonicalRecord;
    if rs != [] {
      CanonicalRecordIsSame(rs[0].elements);
      CanonicalIsSame(rs[1..]);
    }
  }

  lemma CanonicalRecordIsSame(es: seq<Element>)
    requires AllEncodable(es)
    ensures SameElements(CanonicalRecord(es), es)
  {
    hide Encodable, SameValue;
    forall i | 0 <= i < |es|
      ensures CanonicalRecord(es)[i].ie == es[i].ie && SameValue(CanonicalRecord(es)[i].value, es[i].value)
    {
      CanonicalElementIsSame(es[i]);
    }
  }

  lemma CanonicalElementIsSame(e: Element)
    requires Encodable(e)
    ensures Canonical(e).ie == e.ie && SameValue(Canonical(e).value, e.value)
  {
    if e.ie.dataType == Ipv4Address && |e.value.ip| == 16 {
      assert MAPPED_PREFIX + e.value.ip[12..] == e.value.ip;
    }
  }

  /** No element of the template takes a byte. */
  predicate TakesNothing(template: seq<InfoElement>) {
    forall i :: 0 <= i < |template| ==> template[i].len == 0
  }

  lemma {:induction false} Consumes(template: seq<InfoElement>, buf: seq<byte>)
    requires buf != []
    ensures var r := ReadRecord(template, buf);
            !r.Diverges? && (r.Ok? ==> (|r.value.1| == |buf| <==> TakesNothing(template)))
  {
    hide Decode, AnnouncedLength;
    if template != [] {
      var (e, after) := ReadElement(template[0], buf);
      if template[0].len == 0 {
        assert after == buf;
        Consumes(template[1..], buf);
      } else {
        NeverDiverges(template[1..], after);
        assert |after| < |buf|;
      }
      DecodeEnds(template[0].dataType);
    }
  }

  lemma DecodeEnds(t: DataType)
    ensures forall data :: !Decode(t, data).Diverges?
  {
  }

  lemma {:induction false} NeverDiverges(template: seq<InfoElement>, buf: seq<byte>)
    ensures !ReadRecord(template, buf).Diverges?
  {
    hide Decode, AnnouncedLength;
    if template != [] {
      DecodeEnds(template[0].dataType);
      NeverDiverges(template[1..], ReadElement(template[0], buf).1);
    }
  }

  /** Types that decode from no bytes at all. */
  predicate DecodesNothing(t: DataType) {
    t == MacAddress || t == Ipv4Address || t == Ipv6Address || t == String
  }

  /** Every element takes no bytes and decodes from none. */
  predicate Silent(template: seq<InfoElement>) {
    forall i :: 0 <= i < |template| ==> template[i].len == 0 && DecodesNothing(template[i].dataType)
  }

  lemma DecodeOfNothing(t: DataType)
    ensures Decode(t, []).Ok? <==> DecodesNothing(t)
  {
  }

  lemma {:induction false} SilentReads(template: seq<InfoElement>, buf: seq<byte>)
    requires TakesNothing(template)
    ensures ReadRecord(template, buf).Ok? <==> Silent(template)
  {
    hide Decode, AnnouncedLength;
    if template != [] {
      assert buf[..0] == [] && buf[0..] == buf;
      DecodeOfNothing(template[0].dataType);
      SilentReads(template[1..], buf);
      assert Silent(template) <==> DecodesNothing(template[0].dataType) && Silent(template[1..]);
    }
  }

  lemma {:induction false} DivergesOnRead(template: seq<InfoElement>, buf: seq<byte>)
    ensures ReadRecords(template, buf).Diverges? <==>
              buf != [] && TakesNothing(template) && ReadRecord(template, buf).Ok?
    decreases |buf|
  {
    hide ReadRecord;
    if buf != [] {
      Consumes(template, buf);
      var r := ReadRecord(template, buf);
      if r.Ok? && |r.value.1| != |buf| {
        DivergesOnRead(template, r.value.1);
      }
    }
  }

  /** The decoding loop fails to end exactly on a non-empty set body whose template has only elements of length zero,
      all addresses or strings; for elements as the registry describes them that is the empty template. */
  lemma DivergesExactly(template: seq<InfoElement>, buf: seq<byte>)
    ensures ReadRecords(template, buf).Diverges? <==> buf != [] && Silent(template)
    ensures (forall i :: 0 <= i < |template| ==> WellDescribed(template[i])) ==> (Silent(template) <==> template == [])
  {
    hide ReadRecord, ReadRecords;
    DivergesOnRead(template, buf);
    if TakesNothing(template) {
      SilentReads(template, buf);
    }
    if template != [] && WellDescribed(template[0]) {
      assert !(template[0].len == 0 && DecodesNothing(template[0].dataType));
    }
  }

  // ---------- template sets ----------

  /** One field specifier: the element it names, and the rest of the buffer. */
  function ReadSpecifier(reg: Index, buf: seq<byte>): Outcome<(InfoElement, seq<byte>)> {
    if |buf| < 4 then Error
    else if buf[0] < 128 then
      WritesBack(buf[..2]);
      Widths();
      var ie :- Lookup(reg, 0, FromBigEndian(buf[..2]));
      Ok((ie, buf[4..]))
    else if |buf| < 8 then Error
    else
      WritesBack(buf[4..8]);
      WritesBack([buf[0] - 128, buf[1]]);
      Widths();
      var ie :- Lookup(reg, FromBigEndian(buf[4..8]), FromBigEndian([buf[0] - 128, buf[1]]));
      Ok((ie, buf[8..]))
  }

  function ReadSpecifiers(reg: Index, buf: seq<byte>, n: nat): Outcome<(seq<Element>, seq<byte>)> {
    if n == 0 then Ok(([], buf))
    else
      var (ie, after) :- ReadSpecifier(reg, buf);
      var v :- ZeroValue(ie.dataType);
      var (els, rest) :- ReadSpecifiers(reg, after, n - 1);
      Ok(([Element(ie, v)] + els, rest))
  }

  /** The template id and its elements, with empty values. */
  function ReadTemplate(reg: Index, buf: seq<byte>): Outcome<RecordValue> {
    if |buf| < 4 then Error
    else
      WritesBack(buf[..2]);
      Widths();
      var (els, _) :- ReadSpecifiers(reg, buf[4..], FromBigEndian(buf[2..4]));
      Ok(RecordValue(FromBigEndian(buf[..2]), els))
  }

  /** Elements that the registry knows by id, with ids of fifteen bits. */
  predicate Registered(reg: Index, ie: InfoElement) {
    ie.elementId < 0x8000 && Lookup(reg, ie.enterpriseId, ie.elementId) == Ok(ie)
  }

  predicate AllRegistered(reg: Index, ies: seq<InfoElement>) {
    forall i :: 0 <= i < |ies| ==> Registered(reg, ies[i])
  }

  lemma SpecifierRoundTrip(reg: Index, ie: InfoElement, rest: seq<byte>)
    requires Registered(reg, ie)
    ensures ReadSpecifier(reg, FieldSpecifier(ie) + rest) == Ok((ie, rest))
  {
    Widths();
    var id := BigEndian(ie.elementId, 2);
    var s := FieldSpecifier(ie) + rest;
    TopByte(ie.elementId);
    ReadsBack(ie.elementId, 2);
    if ie.enterpriseId == 0 {
      assert s[..2] == id && s[4..] == rest;
    } else {
      ReadsBack(ie.enterpriseId, 4);
      assert s[4..8] == BigEndian(ie.enterpriseId, 4) && s[8..] == rest;
      assert [s[0] - 128, s[1]] == id;
    }
  }

  lemma TopByte(id: u16)
    requires id < 0x8000
    ensures BigEndian(id, 2)[0] < 128
  {
    assert BigEndian(id, 2) == BigEndian(id / 256, 1) + [id % 256];
    assert BigEndian(id / 256, 1) == BigEndian(id / 256 / 256, 0) + [id / 256 % 256];
  }

  /** The elements of a template as the collector rebuilds them. */
  function EmptyElements(ies: seq<InfoElement>): (es: seq<Element>)
    requires forall i :: 0 <= i < |ies| ==> ZeroValue(ies[i].dataType).Ok?
    ensures Ies(es) == ies && forall i :: 0 <= i < |es| ==> IsValueEmpty(es[i].value)
  {
    seq(|ies|, i requires 0 <= i < |ies| => Element(ies[i], ZeroValue(ies[i].dataType).value))
  }

  /** Types whose template element the collector can build: all supported ones but 64-bit signed. */
  predicate Announceable(ie: InfoElement) {
    ZeroValue(ie.dataType).Ok?
  }

  predicate AllAnnounceable(ies: seq<InfoElement>) {
    forall i :: 0 <= i < |ies| ==> Announceable(ies[i])
  }

  /** Whatever follows, the collector rebuilds a registered template exactly when none of its elements is of a type it
      cannot give an empty value; with a 64-bit signed element first among those it panics, with an unsupported one it
      returns an error. */
  lemma {:induction false} SpecifiersRoundTrip(reg: Index, ies: seq<InfoElement>, rest: seq<byte>)
    requires AllRegistered(reg, ies)
    ensures var r := ReadSpecifiers(reg, Specifiers(ies) + rest, |ies|);
            && (r.Ok? <==> AllAnnounceable(ies))
            && (r.Ok? ==> r.value == (EmptyElements(ies), rest))
            && (!r.Ok? ==> (r.Panic? <==> ies[FirstBlocked(ies)].dataType == Signed64))
  {
    hide FieldSpecifier, ReadSpecifier, ZeroValue, Registered, AllAnnounceable, EmptyElements;
    if ies == [] {
      assert Specifiers(ies) + rest == rest;
      NothingAnnounced();
    } else {
      var tail := Specifiers(ies[1..]) + rest;
      SpecifierRoundTrip(reg, ies[0], tail);
      Associates(FieldSpecifier(ies[0]), Specifiers(ies[1..]), rest);
      SpecifiersRoundTrip(reg, ies[1..], rest);
      ZeroValuePanics(ies[0].dataType);
      AnnouncedStep(ies);
    }
  }

  lemma NothingAnnounced()
    ensures AllAnnounceable([]) && EmptyElements([]) == []
  {
  }

  lemma AnnouncedStep(ies: seq<InfoElement>)
    requires ies != []
    ensures AllAnnounceable(ies) <==> Announceable(ies[0]) && AllAnnounceable(ies[1..])
    ensures AllAnnounceable(ies) ==>
              EmptyElements(ies) == [Element(ies[0], ZeroValue(ies[0].dataType).value)] + EmptyElements(ies[1..])
  {
    hide ZeroValue;
    if Announceable(ies[0]) && AllAnnounceable(ies[1..]) {
      assert forall i :: 1 <= i < |ies| ==> ies[i] == ies[1..][i - 1];
    }
  }

  lemma ZeroValuePanics(t: DataType)
    ensures !ZeroValue(t).Ok? ==> (ZeroValue(t).Panic? <==> t == Signed64)
    ensures ZeroValue(t).Diverges? == false
  {
  }

  /** The first element that has no empty value. */
  function FirstBlocked(ies: seq<InfoElement>): (i: nat)
    requires !AllAnnounceable(ies)
    ensures i < |ies| && !Announceable(ies[i])
  {
    if !Announceable(ies[0]) then 0 else 1 + FirstBlocked(ies[1..])
  }

  /** Template round trip: the collector recovers the id and the element list, enterprise numbers included, and the
      record it rebuilds from them prints as the same bytes. */
  lemma TemplateRoundTrip(reg: Index, id: u16, ies: seq<InfoElement>)
    requires AllRegistered(reg, ies) && |ies| < 0x1_0000 && AllAnnounceable(ies)
    ensures ReadTemplate(reg, TemplateBytes(id, ies)) == Ok(RecordValue(id, EmptyElements(ies)))
    ensures PrintRecord(Template, RecordValue(id, EmptyElements(ies))) == TemplateBytes(id, ies)
  {
    hide BigEndian, FromBigEndian, Specifiers, ReadSpecifiers, ZeroValue, Registered;
    Widths();
    ReadsBack(id, 2);
    ReadsBack(|ies|, 2);
    var t := TemplateBytes(id, ies);
    assert t[..2] == BigEndian(id, 2) && t[2..4] == BigEndian(|ies|, 2) && t[4..] == Specifiers(ies);
    SpecifiersRoundTrip(reg, ies, []);
    assert Specifiers(ies) + [] == Specifiers(ies);
  }

  // ---------- messages ----------

  datatype Message = Message(version: u16, length: u16, time: u32, seqNumber: u32, domain: u32, contents: SetValue)

  /** Domain to template id to elements. */
  type Templates = map<u32, map<u16, seq<InfoElement>>>

  datatype Collector = Collector(templates: Templates, received: u64)

  function TemplateOf(ts: Templates, domain: u32, id: u16): Option<seq<InfoElement>> {
    if domain in ts && id in ts[domain] then Some(ts[domain][id]) else None
  }

  function AddTemplate(ts: Templates, domain: u32, id: u16, ies: seq<InfoElement>): (r: Templates)
    ensures forall d, i :: TemplateOf(r, d, i) == if d == domain && i == id then Some(ies) else TemplateOf(ts, d, i)
  {
    var inner := if domain in ts then ts[domain] else map[];
    ts[domain := inner[id := ies]]
  }

  function Received(col: Collector): Collector {
    col.(received := (col.received + 1) % 0x1_0000_0000_0000_0000)
  }

  function U16At(p: seq<byte>, i: nat): u16
    requires i + 2 <= |p|
  {
    WritesBack(p[i..i + 2]);
    Widths();
    FromBigEndian(p[i..i + 2])
  }

  function U32At(p: seq<byte>, i: nat): u32
    requires i + 4 <= |p|
  {
    WritesBack(p[i..i + 4]);
    Widths();
    FromBigEndian(p[i..i + 4])
  }

  function WithId(id: u16, records: seq<seq<Element>>): seq<RecordValue> {
    seq(|records|, i requires 0 <= i < |records| => RecordValue(id, records[i]))
  }

  /** `decodeTemplateSet` and `decodeDataSet`: the set, and for a template set the collector that has learnt it. */
  function DecodeSet(reg: Index, col: Collector, domain: u32, setId: u16, body: seq<byte>): Outcome<(Collector,
      SetValue)> {
    if setId == TEMPLATE_SET_ID then
      var r :- ReadTemplate(reg, body);
      Ok((col.(templates := AddTemplate(col.templates, domain, r.templateId, Ies(r.elements))),
          SetValue(Template, r.templateId, [r])))
    else
      match TemplateOf(col.templates, domain, setId)
      case None => Error
      case Some(template) =>
        var records :- ReadRecords(template, body);
        Ok((col, SetValue(Data, setId, WithId(setId, records))))
  }

  /** `decodePacket`: any failure leaves the collector as it was. */
  function DecodePacket(reg: Index, col: Collector, p: seq<byte>): (Collector, Outcome<Message>) {
    if |p| < MESSAGE_HEADER + SET_HEADER || U16At(p, 0) != VERSION then (col, Error)
    else
      match DecodeSet(reg, col, U32At(p, 12), U16At(p, 16), p[20..])
      case Ok((learnt, contents)) =>
        (Received(learnt), Ok(Message(U16At(p, 0), U16At(p, 2), U32At(p, 4), U32At(p, 8), U32At(p, 12), contents)))
      case Error => (col, Error)
      case Panic => (col, Panic)
      case Diverges => (col, Diverges)
  }

  /** The fields of a built message are where the collector looks for them. */
  lemma HeaderRoundTrip(s: SetValue, domain: u32, seqNumber: u32, time: u32)
    requires AllPrintable(s.setType, s.records)
    ensures var m := CreateMessage(s, domain, seqNumber, time);
            m.Ok? ==>
              && |m.value| >= 20 && U16At(m.value, 0) == VERSION && U16At(m.value, 2) == |m.value|
              && U32At(m.value, 4) == time && U32At(m.value, 8) == seqNumber && U32At(m.value, 12) == domain
              && U16At(m.value, 16) == (if s.setType == Template then TEMPLATE_SET_ID else s.templateId)
              && U16At(m.value, 18) == |m.value| - 16 && m.value[20..] == PrintRecords(s.setType, s.records)
  {
    hide BigEndian, FromBigEndian, PrintRecords, MessageHeader;
    var m := CreateMessage(s, domain, seqNumber, time);
    if m.Ok? {
      var body, whole := PrintRecords(s.setType, s.records), SetHeader(s) + PrintRecords(s.setType, s.records);
      var length := MESSAGE_HEADER + SetLength(s);
      var id := if s.setType == Template then TEMPLATE_SET_ID else s.templateId;
      MessageHeaderRead(length, time, seqNumber, domain, whole);
      Read16(id, BigEndian(SetLength(s) % 0x1_0000, 2) + body);
      Associates(MessageHeader(length, time, seqNumber, domain), SetHeader(s), body);
      Associates(BigEndian(id, 2), BigEndian(SetLength(s) % 0x1_0000, 2), body);
      Read16(SetLength(s), body);
      assert m.value[16..] == whole;
      assert m.value[16..18] == whole[0..2] && m.value[18..20] == whole[2..4];
      assert m.value[20..] == whole[4..] == body;
    }
  }

  lemma Read16(n: u16, rest: seq<byte>)
    ensures |BigEndian(n, 2) + rest| >= 2 && U16At(BigEndian(n, 2) + rest, 0) == n
  {
    hide BigEndian, FromBigEndian;
    Widths();
    ReadsBack(n, 2);
    assert (BigEndian(n, 2) + rest)[0..2] == BigEndian(n, 2);
  }

  lemma Read32(n: u32, rest: seq<byte>)
    ensures |BigEndian(n, 4) + rest| >= 4 && U32At(BigEndian(n, 4) + rest, 0) == n
  {
    hide BigEndian, FromBigEndian;
    Widths();
    ReadsBack(n, 4);
    assert (BigEndian(n, 4) + rest)[0..4] == BigEndian(n, 4);
  }

  lemma MessageHeaderRead(length: u16, time: u32, seqNumber: u32, domain: u32, rest: seq<byte>)
    ensures var h := MessageHeader(length, time, seqNumber, domain) + rest;
            && |h| == 16 + |rest|
            && U16At(h, 0) == VERSION && U16At(h, 2) == length && U32At(h, 4) == time && U32At(h, 8) == seqNumber
               && U32At(h, 12) == domain
            && h[16..] == rest
  {
    hide BigEndian, FromBigEndian;
    var h := MessageHeader(length, time, seqNumber, domain) + rest;
    var r12 := BigEndian(domain, 4) + rest;
    var r8 := BigEndian(seqNumber, 4) + r12;
    var r4 := BigEndian(time, 4) + r8;
    var r2 := BigEndian(length, 2) + r4;
    assert h == BigEndian(VERSION, 2) + r2;
    Read16(VERSION, r2);
    Read16(length, r4);
    Read32(time, r8);
    Read32(seqNumber, r12);
    Read32(domain, rest);
    assert h[2..] == r2 && r2[2..] == r4 && r4[4..] == r8 && r8[4..] == r12 && r12[4..] == rest;
    assert h[2..4] == r2[0..2] && h[4..8] == r4[0..4] && h[8..12] == r8[0..4] && h[12..16] == r12[0..4];
  }
}
