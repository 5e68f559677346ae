/**
  The exporter, the byte stream and the collector as one system: templates learnt on one side are the templates used on
  the other, and every data set that conforms to its template arrives as the records that were sent.
 */
module Protocol {
  import opened Bytes
  import opened Elements
  import opened Wire
  import opened Parse

  // ---------- the exporter ----------

  datatype TemplateValue = TemplateValue(elements: seq<InfoElement>, minLength: u16)

  datatype Exporter = Exporter(domain: u32, seqNumber: u32, templates: map<u16, TemplateValue>)

  /** The first definition of a template id stays. */
  function UpdateTemplate(x: Exporter, r: RecordValue): Exporter {
    if r.templateId in x.templates then x
    else x.(templates := x.templates[r.templateId := TemplateValue(Ies(r.elements), MinLength(Ies(r.elements)))])
  }

  function UpdateTemplates(x: Exporter, rs: seq<RecordValue>): Exporter
    decreases |rs|
  {
    if rs == [] then x else UpdateTemplates(UpdateTemplate(x, rs[0]), rs[1..])
  }

  /** `dataRecSanityCheck`: known template, same 16-bit field count, not shorter than the template's minimum. */
  predicate Sane(x: Exporter, r: RecordValue) {
    && r.templateId in x.templates
    && |r.elements| % 0x1_0000 == |x.templates[r.templateId].elements| % 0x1_0000
    && RecordLength(r.elements) >= x.templates[r.templateId].minLength
  }

  predicate AllSane(x: Exporter, rs: seq<RecordValue>) {
    forall i :: 0 <= i < |rs| ==> Sane(x, rs[i])
  }

  /** The exporter after the checks of `SendSet`: templates learnt, data records counted. */
  function Prepared(x: Exporter, s: SetValue): Exporter {
    match s.setType
    case Template => UpdateTemplates(x, s.records)
    case Data => x.(seqNumber := (x.seqNumber + |s.records|) % 0x1_0000_0000)
    case Undefined => x
  }

  /** `SendSet`: the new exporter and the bytes written to the connection. */
  function SendSet(x: Exporter, s: SetValue, time: u32): (Exporter, Outcome<seq<byte>>)
    requires AllPrintable(s.setType, s.records)
  {
    if s.setType == Undefined || (s.setType == Data && !AllSane(x, s.records)) then (x, Error)
    else
      var y := Prepared(x, s);
      (y, CreateMessage(s, y.domain, y.seqNumber, time))
  }

  /** The set that a refresh sends for a template the exporter knows. */
  function RefreshSet(x: Exporter, id: u16): SetValue
    requires id in x.templates && AllAnnounceable(x.templates[id].elements)
  {
    SetValue(Template, id, [RecordValue(id, EmptyElements(x.templates[id].elements))])
  }

  // ---------- the sanity check never rejects a conforming record ----------

  function TrueMinimum(ies: seq<InfoElement>): nat {
    if ies == [] then 0
    else
      var last := ies[|ies| - 1];
      TrueMinimum(ies[..|ies| - 1]) + if last.len == VARIABLE_LENGTH then 1 else last.len
  }

  lemma {:induction false} WrappedMinimumIsSmaller(ies: seq<InfoElement>)
    ensures MinLength(ies) <= TrueMinimum(ies)
  {
    if ies != [] {
      WrappedMinimumIsSmaller(ies[..|ies| - 1]);
    }
  }

  lemma {:induction false} MinimumIsReached(es: seq<Element>)
    requires AllEncodable(es)
    ensures TrueMinimum(Ies(es)) <= RecordLength(es)
  {
    hide Written;
    if es != [] {
      var p, last := es[..|es| - 1], es[|es| - 1];
      MinimumIsReached(p);
      assert Ies(es)[..|es| - 1] == Ies(p);
      assert es == p + [last];
      RecordLengthAppend(p, [last]);
      assert [last][1..] == [];
      EncodableFillsSlot(last);
    }
  }

  /** Although the minimum length and the field count wrap at sixteen bits, a record that conforms to its registered
      template always passes the exporter's check. */
  lemma ConformingIsSane(x: Exporter, r: RecordValue)
    requires r.templateId in x.templates
    requires Conforms(x.templates[r.templateId].elements, r.elements)
    requires x.templates[r.templateId].minLength == MinLength(x.templates[r.templateId].elements)
    ensures Sane(x, r)
  {
    WrappedMinimumIsSmaller(Ies(r.elements));
    MinimumIsReached(r.elements);
  }

  // ---------- one message, end to end ----------

  /** Template id to elements. */
  type Known = map<u16, seq<InfoElement>>

  /** A template set that can be learnt: one record, registered announceable elements, and no redefinition. */
  predicate LearnableSet(reg: Index, known: Known, s: SetValue) {
    && s.setType == Template && |s.records| == 1
    && var r := s.records[0];
    && r.elements != [] && |r.elements| < 0x1_0000 && r.templateId != TEMPLATE_SET_ID
    && AllRegistered(reg, Ies(r.elements)) && AllAnnounceable(Ies(r.elements))
    && (r.templateId in known ==> known[r.templateId] == Ies(r.elements))
  }

  /** A data set whose records conform to the template known under its id. */
  predicate ConformingSet(known: Known, s: SetValue) {
    && s.setType == Data && s.templateId in known && known[s.templateId] != [] && s.templateId != TEMPLATE_SET_ID
    && AllConform(known[s.templateId], s.records)
    && forall i :: 0 <= i < |s.records| ==> s.records[i].templateId == s.templateId
  }

  /** A template set that can be learnt, or a data set of any contents that is not taken for a template set. */
  predicate FairSet(reg: Index, known: Known, s: SetValue) {
    LearnableSet(reg, known, s) || (s.setType == Data && s.templateId != TEMPLATE_SET_ID)
  }

  predicate GoodSet(reg: Index, known: Known, s: SetValue) {
    LearnableSet(reg, known, s) || ConformingSet(known, s)
  }

  function Learn(known: Known, s: SetValue): Known {
    if s.setType == Template
      && |s.records| == 1 then known[s.records[0].templateId := Ies(s.records[0].elements)] else known
  }

  /** The set as the collector hands it on. */
  function Arrived(reg: Index, known: Known, s: SetValue): SetValue
    requires GoodSet(reg, known, s)
  {
    if s.setType == Template then
      var r := s.records[0];
      SetValue(Template, r.templateId, [RecordValue(r.templateId, EmptyElements(Ies(r.elements)))])
    else SetValue(Data, s.templateId, WithId(s.templateId, CanonicalRecords(s.records)))
  }

  ghost predicate Knows(col: Collector, domain: u32, known: Known) {
    forall id :: TemplateOf(col.templates, domain, id) == if id in known then Some(known[id]) else None
  }

  lemma GoodSetPrints(reg: Index, known: Known, s: SetValue)
    requires GoodSet(reg, known, s)
    ensures AllPrintable(s.setType, s.records)
    ensures s.setType == Template ==>
            PrintRecords(Template, s.records) == TemplateBytes(s.records[0].templateId, Ies(s.records[0].elements))
  {
    hide TemplateBytes, AllRegistered, AllAnnounceable;
    if s.setType == Data {
      RecordsRoundTrip(known[s.templateId], s.records);
    } else {
      assert s.records[1..] == [];
    }
  }

  lemma SetRoundTrip(reg: Index, col: Collector, domain: u32, known: Known, s: SetValue)
    requires GoodSet(reg, known, s) && Knows(col, domain, known)
    ensures AllPrintable(s.setType, s.records)
    ensures var r := DecodeSet(reg, col, domain, if s.setType == Template then TEMPLATE_SET_ID else s.templateId,
                               PrintRecords(s.setType, s.records));
            && r.Ok? && r.value.1 == Arrived(reg, known, s) && Knows(r.value.0, domain, Learn(known, s))
            && r.value.0.received == col.received
  {
    hide AllRegistered, AllAnnounceable, AllConform, CanonicalRecords, EmptyElements, ReadTemplate, ReadRecords,
      TemplateBytes, PrintRecords;
    GoodSetPrints(reg, known, s);
    if s.setType == Template {
      var r := s.records[0];
      TemplateRoundTrip(reg, r.templateId, Ies(r.elements));
    } else {
      RecordsRoundTrip(known[s.templateId], s.records);
    }
  }

  /** The message that a collector which knows the sender's templates makes of a good set. */
  function Delivered(reg: Index, known: Known, s: SetValue, domain: u32, seqNumber: u32, time: u32): Message
    requires GoodSet(reg, known, s) && AllPrintable(s.setType, s.records)
             && MESSAGE_HEADER + SetLength(s) <= MAX_MESSAGE
  {
    Message(VERSION, MESSAGE_HEADER + SetLength(s), time, seqNumber, domain, Arrived(reg, known, s))
  }

  /** Message round trip, for template sets and for data sets of any number of records: every header field and every
      value arrives, in order, and the collector has learnt exactly what the set announced. */
  lemma MessageRoundTrip(reg: Index, col: Collector, known: Known, s: SetValue, domain: u32, seqNumber: u32, time: u32)
    requires GoodSet(reg, known, s) && Knows(col, domain, known)
    ensures AllPrintable(s.setType, s.records)
    ensures var m := CreateMessage(s, domain, seqNumber, time);
            m.Ok? ==>
              var (after, got) := DecodePacket(reg, col, m.value);
              && got == Ok(Delivered(reg, known, s, domain, seqNumber, time))
              && Knows(after, domain, Learn(known, s)) && after.received == (col.received + 1) % 0x1_0000_0000_0000_0000
  {
    hide GoodSet, PrintRecords, DecodeSet, Arrived, MessageHeader, SetHeader, U16At, U32At;
    GoodSetPrints(reg, known, s);
    SetRoundTrip(reg, col, domain, known, s);
    HeaderRoundTrip(s, domain, seqNumber, time);
    MessageFilled(s, domain, seqNumber, time);
  }

  // ---------- data sets that pass the exporter's check without conforming ----------

  /** What the collector reads in a set, if it knows these templates. */
  function Decoded(reg: Index, known: Known, s: SetValue): Outcome<SetValue>
    requires FairSet(reg, known, s) && AllPrintable(s.setType, s.records)
  {
    if s.setType == Template then Ok(Arrived(reg, known, s))
    else if s.templateId !in known then Error
    else
      var records :- ReadRecords(known[s.templateId], PrintRecords(Data, s.records));
      Ok(SetValue(Data, s.templateId, WithId(s.templateId, records)))
  }

  /** What it hands on. */
  function Handed(reg: Index, known: Known, s: SetValue, domain: u32, seqNumber: u32, time: u32): Outcome<Message>
    requires FairSet(reg, known, s) && AllPrintable(s.setType, s.records)
             && MESSAGE_HEADER + SetLength(s) <= MAX_MESSAGE
  {
    var contents :- Decoded(reg, known, s);
    Ok(Message(VERSION, MESSAGE_HEADER + SetLength(s), time, seqNumber, domain, contents))
  }

  lemma FairSetDecodes(reg: Index, col: Collector, domain: u32, known: Known, s: SetValue)
    requires FairSet(reg, known, s) && AllPrintable(s.setType, s.records) && Knows(col, domain, known)
    ensures var r := DecodeSet(reg, col, domain, if s.setType == Template then TEMPLATE_SET_ID else s.templateId,
                               PrintRecords(s.setType, s.records));
            match Decoded(reg, known, s)
            case Ok(contents) =>
              && r.Ok? && r.value.1 == contents && Knows(r.value.0, domain, Learn(known, s))
              && r.value.0.received == col.received
            case Error => r == Error && Learn(known, s) == known
            case Panic => r == Panic && Learn(known, s) == known
            case Diverges => r == Diverges && Learn(known, s) == known
  {
    hide AllRegistered, AllAnnounceable, ReadTemplate, ReadRecords, PrintRecords, Arrived;
    if s.setType == Template {
      SetRoundTrip(reg, col, domain, known, s);
    } else {
      assert TemplateOf(col.templates, domain, s.templateId) ==
        if s.templateId in known then Some(known[s.templateId]) else None;
    }
  }

  /** Every message, good or not: what is handed on is what is read in its set, and nothing else changes the
      collector's templates than a template set that is read. */
  lemma FairMessage(reg: Index, col: Collector, known: Known, s: SetValue, domain: u32, seqNumber: u32, time: u32)
    requires FairSet(reg, known, s) && AllPrintable(s.setType, s.records) && Knows(col, domain, known)
    ensures var m := CreateMessage(s, domain, seqNumber, time);
            m.Ok? ==>
              var (after, got) := DecodePacket(reg, col, m.value);
              && got == Handed(reg, known, s, domain, seqNumber, time) && Knows(after, domain, Learn(known, s))
              && after.received == (col.received + if got.Ok? then 1 else 0) % 0x1_0000_0000_0000_0000
  {
    hide FairSet, PrintRecords, DecodeSet, Decoded, MessageHeader, SetHeader, U16At, U32At, Learn;
    FairSetDecodes(reg, col, domain, known, s);
    HeaderRoundTrip(s, domain, seqNumber, time);
    MessageFilled(s, domain, seqNumber, time);
  }

  /** A good set is handed on as it was sent. */
  lemma GoodIsDelivered(reg: Index, known: Known, s: SetValue, domain: u32, seqNumber: u32, time: u32)
    requires GoodSet(reg, known, s)
    ensures FairSet(reg, known, s) && AllPrintable(s.setType, s.records)
    ensures MESSAGE_HEADER + SetLength(s) <= MAX_MESSAGE ==>
              Handed(reg, known, s, domain, seqNumber, time) ==
              Ok(Delivered(reg, known, s, domain, seqNumber, time))
  {
    hide AllRegistered, AllAnnounceable, PrintRecords, ReadRecords, CanonicalRecords, AllConform;
    GoodSetPrints(reg, known, s);
    if s.setType == Data {
      RecordsRoundTrip(known[s.templateId], s.records);
    }
  }

  /** A data set under a known template arrives with the records that were sent exactly if it conforms. */
  lemma ArrivesExactly(reg: Index, known: Known, s: SetValue)
    requires s.setType == Data && s.templateId != TEMPLATE_SET_ID && AllPrintable(Data, s.records)
    requires s.templateId in known && known[s.templateId] != [] && AllDescribed(known[s.templateId])
    ensures var d := Decoded(reg, known, s);
            d.Ok? && Same(d.value.records, s.records) <==> ConformingSet(known, s)
  {
    hide AllConform, ReadRecords, PrintRecords, CanonicalRecords, AllDescribed, SameElements;
    var template := known[s.templateId];
    var out := ReadRecords(template, PrintRecords(Data, s.records));
    if out.Ok? && Same(WithId(s.templateId, out.value), s.records) {
      assert SameRecords(out.value, s.records);
      OnlyConforming(template, s.records);
    }
    if ConformingSet(known, s) {
      RecordsRoundTrip(template, s.records);
      AllConformEncodes(template, s.records);
      CanonicalIsSame(s.records);
    }
  }

  /** The same records: ids, elements in order, and values. */
  predicate Same(a: seq<RecordValue>, b: seq<RecordValue>) {
    && |a| == |b|
    && forall i :: 0 <= i < |a| ==> a[i].templateId == b[i].templateId && SameElements(a[i].elements, b[i].elements)
  }

  lemma AllConformEncodes(template: seq<InfoElement>, rs: seq<RecordValue>)
    requires AllConform(template, rs)
    ensures forall i :: 0 <= i < |rs| ==> AllEncodable(rs[i].elements)
  {
  }

  /** The exporter accepts a record that does not conform, and the collector panics on it: a number is printed where
      the template has a text, is read as the length of one, and the text takes the bytes of the element after it. */
  lemma AcceptedThenPanic(reg: Index, col: Collector, x: Exporter, id: u16, text: InfoElement, count: InfoElement,
      small: InfoElement, time: u32)
    requires text.dataType == String && count.dataType == Unsigned64 && small.dataType == Unsigned8
    requires WellDescribed(text) && WellDescribed(count) && WellDescribed(small) && id != TEMPLATE_SET_ID
    requires id in x.templates && x.templates[id] == TemplateValue([text, count], MinLength([text, count]))
    requires TemplateOf(col.templates, x.domain, id) == Some([text, count])
    ensures var s := SetValue(Data, id, [RecordValue(id, Misfit(count, small))]);
            && AllPrintable(Data, s.records) && SendSet(x, s, time).1.Ok?
            && DecodePacket(reg, col, SendSet(x, s, time).1.value).1 == Panic
  {
    hide ReadRecords, PrintRecords, RecordBytes, MinLength, U16At, U32At, MessageHeader, SetHeader, WellDescribed,
      RecordLength;
    var es := Misfit(count, small);
    var rs := [RecordValue(id, es)];
    MisfitPrints(count, small, id);
    MisfitPanics(text, count);
    MisfitMinimum(text, count);
    var y := x.(seqNumber := (x.seqNumber + 1) % 0x1_0000_0000);
    HeaderRoundTrip(SetValue(Data, id, rs), y.domain, y.seqNumber, time);
  }

  function Misfit(count: InfoElement, small: InfoElement): seq<Element> {
    [Element(small, U8(254)), Element(count, U64(0))]
  }

  lemma MisfitPrints(count: InfoElement, small: InfoElement, id: u16)
    requires count.dataType == Unsigned64 && small.dataType == Unsigned8 && WellDescribed(count) && WellDescribed(small)
    ensures var rs := [RecordValue(id, Misfit(count, small))];
            && AllPrintable(Data, rs) && PrintRecords(Data, rs) == [254] + BigEndian(0, 8)
            && RecordLength(rs[0].elements) == 9
  {
    hide BigEndian;
    var es := Misfit(count, small);
    assert es[1..] == [es[1]] && es[1..][1..] == [];
    assert Slot(es[0]) == [254] && Slot(es[1]) == BigEndian(0, 8);
    assert RecordBytes(es[1..]) == BigEndian(0, 8) + [];
    var rs := [RecordValue(id, es)];
    assert rs[1..] == [];
  }

  lemma MisfitPanics(text: InfoElement, count: InfoElement)
    requires text.dataType == String && count.dataType == Unsigned64 && WellDescribed(text) && WellDescribed(count)
    ensures ReadRecords([text, count], [254] + BigEndian(0, 8)) == Panic
  {
    hide BigEndian, FromBigEndian;
    var t, buf := [text, count], [254] + BigEndian(0, 8);
    assert t[1..] == [count] && [count][1..] == [];
    assert buf[1..] == BigEndian(0, 8);
    assert ReadElement(text, buf).1 == [];
    assert ReadElement(count, []).0 == Panic;
    assert ReadRecord([count], []) == Panic;
  }

  lemma MisfitMinimum(text: InfoElement, count: InfoElement)
    requires text.dataType == String && count.dataType == Unsigned64 && WellDescribed(text) && WellDescribed(count)
    ensures MinLength([text, count]) == 9
  {
    assert [text, count][..1] == [text] && [text][..0] == [];
    assert MinLength([]) == 0 && MinLength([text]) == 1;
  }

  // ---------- when the two template maps agree ----------

  function Definitions(x: Exporter): Known {
    map id | id in x.templates :: x.templates[id].elements
  }

  /** The message that announces a template of these elements is not too long. */
  predicate Fits(ies: seq<InfoElement>) {
    MESSAGE_HEADER + SET_HEADER + 4 + |Specifiers(ies)| <= MAX_MESSAGE
  }

  lemma SentIfFits(reg: Index, known: Known, s: SetValue, domain: u32, seqNumber: u32, time: u32)
    requires LearnableSet(reg, known, s)
    ensures AllPrintable(s.setType, s.records)
    ensures CreateMessage(s, domain, seqNumber, time).Ok? <==> Fits(Ies(s.records[0].elements))
  {
    hide AllRegistered, AllAnnounceable, BigEndian, Specifiers, PrintRecords, MessageHeader, SetHeader;
    GoodSetPrints(reg, known, s);
  }

  lemma LearntOnce(x: Exporter, s: SetValue)
    requires |s.records| == 1
    ensures UpdateTemplates(x, s.records) == UpdateTemplate(x, s.records[0])
  {
    hide UpdateTemplate;
    assert s.records[1..] == [];
  }

  /** Why ids must not be redefined: after any announcement the collector holds the announced elements, but the
      exporter keeps its first ones, so the two agree exactly if the id was new to the exporter or stood for the same
      elements. */
  lemma AgreeUnlessRedefined(reg: Index, col: Collector, x: Exporter, s: SetValue, time: u32)
    requires LearnableSet(reg, map[], s)
    ensures AllPrintable(s.setType, s.records)
    ensures var (y, out) := SendSet(x, s, time);
            var id, ies := s.records[0].templateId, Ies(s.records[0].elements);
            out.Ok? ==>
              var (after, got) := DecodePacket(reg, col, out.value);
              && got.Ok? && TemplateOf(after.templates, x.domain, id) == Some(ies)
              && after.templates == AddTemplate(col.templates, x.domain, id, ies)
              && id in y.templates
              && (TemplateOf(after.templates, x.domain, id) == Some(y.templates[id].elements) <==>
                  (id in x.templates ==> x.templates[id].elements == ies))
  {
    hide AllRegistered, AllAnnounceable, EmptyElements, ReadTemplate, TemplateBytes, PrintRecords, U16At, U32At,
      MinLength;
    var r := s.records[0];
    GoodSetPrints(reg, map[], s);
    TemplateRoundTrip(reg, r.templateId, Ies(r.elements));
    var y := UpdateTemplate(x, r);
    LearntOnce(x, s);
    HeaderRoundTrip(s, y.domain, y.seqNumber, time);
  }

  /** Two maps that agree agree after an announcement exactly if it gives a new id and fits a message, or repeats a
      known one, or redefines one and does not fit. A new template that does not fit is remembered by the exporter
      and never reaches the collector. */
  lemma InStepExactly(reg: Index, col: Collector, x: Exporter, s: SetValue, time: u32)
    requires LearnableSet(reg, map[], s) && Knows(col, x.domain, Definitions(x))
    ensures AllPrintable(s.setType, s.records)
    ensures var (y, out) := SendSet(x, s, time);
            var id, ies := s.records[0].templateId, Ies(s.records[0].elements);
            var after := if out.Ok? then DecodePacket(reg, col, out.value).0 else col;
            && (out.Ok? <==> Fits(ies)) && id in y.templates
            && (Knows(after, x.domain, Definitions(y)) <==>
                if id in x.templates then !Fits(ies) || x.templates[id].elements == ies else Fits(ies))
  {
    hide AllRegistered, AllAnnounceable, CreateMessage, DecodePacket, MinLength, Fits, TemplateOf, AddTemplate;
    AgreeUnlessRedefined(reg, col, x, s, time);
    LearntOnce(x, s);
    var y := UpdateTemplate(x, s.records[0]);
    SentIfFits(reg, map[], s, y.domain, y.seqNumber, time);
    var id := s.records[0].templateId;
    assert id in Definitions(y);
    assert forall d :: d in Definitions(x) ==> d in Definitions(y) && Definitions(y)[d] == Definitions(x)[d];
    assert forall d :: d in Definitions(y) ==> d == id || d in Definitions(x);
  }
}
