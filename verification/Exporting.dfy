/** The exporting process: its template table, its sequence number and what it has written to the connection. */
module Exporting {
  import opened Bytes
  import opened Elements
  import opened Wire
  import opened RecordBuffers
  import opened Messages
  import opened Parse
  import opened Protocol
  import opened WireOctets

  lemma {:induction false} UpdateTemplatesStep(x: Exporter, rs: seq<RecordValue>, i: nat)
    requires i < |rs|
    ensures UpdateTemplates(x, rs[..i + 1]) == UpdateTemplate(UpdateTemplates(x, rs[..i]), rs[i])
    decreases i
  {
    hide UpdateTemplate;
    if i == 0 {
      assert rs[..1] == [rs[0]] && [rs[0]][1..] == [];
    } else {
      var y := UpdateTemplate(x, rs[0]);
      UpdateTemplatesStep(y, rs[1..], i - 1);
      assert rs[..i + 1][1..] == rs[1..][..i] && rs[..i][1..] == rs[1..][..i - 1];
    }
  }

  /** A set that is filled with the one record `r` and may be sent. */
  ghost predicate Ready(s: RecordSet, r: Record, v: SetValue)
    reads s, r
  {
    s.records == [r] && s.Valid() && !s.isDecoding && s.Value() == v
  }

  /** The templates' refresh sets from `start` on, none sharing an object with another. */
  ghost predicate AllReady(x: Exporter, sets: seq<RecordSet>, recs: seq<Record>, ids: seq<u16>, start: nat)
    reads sets, recs
  {
    && start <= |sets| == |recs| == |ids|
    && (forall k :: 0 <= k < |ids| ==> CanAnnounce(x, ids[k]))
    && (forall k :: start <= k < |sets| ==> Ready(sets[k], recs[k], RefreshSet(x, ids[k])))
    && forall j, k :: start <= j < k < |sets| ==> sets[j] != sets[k] && recs[j] != recs[k]
  }

  predicate CanAnnounce(x: Exporter, id: u16) {
    id in x.templates && AllAnnounceable(x.templates[id].elements)
  }

  predicate CanRefresh(x: Exporter, id: u16, time: u32) {
    CanAnnounce(x, id) && CreateMessage(RefreshSet(x, id), x.domain, x.seqNumber, time).Ok?
  }

  /** Building the empty elements of this template panics: a 64-bit signed one comes first among those that have
      none. */
  predicate Panics(ies: seq<InfoElement>) {
    !AllAnnounceable(ies) && ies[FirstBlocked(ies)].dataType == Signed64
  }

  lemma {:induction false} BlockedAt(ies: seq<InfoElement>, i: nat)
    requires i < |ies| && AllAnnounceable(ies[..i]) && !Announceable(ies[i])
    ensures !AllAnnounceable(ies) && FirstBlocked(ies) == i
  {
    hide Announceable;
    if i > 0 {
      assert ies[..i][0] == ies[0];
      assert ies[1..][..i - 1] == ies[..i][1..];
      BlockedAt(ies[1..], i - 1);
    }
  }

  predicate Distinct(ids: seq<u16>) {
    forall j, k :: 0 <= j < k < |ids| ==> ids[j] != ids[k]
  }

  /** The message that announces a template again. */
  function RefreshMessage(x: Exporter, id: u16, time: u32): seq<byte>
    requires CanRefresh(x, id, time)
  {
    CreateMessage(RefreshSet(x, id), x.domain, x.seqNumber, time).value
  }

  function RefreshMessages(x: Exporter, ids: seq<u16>, time: u32): (ms: seq<seq<byte>>)
    requires forall k :: 0 <= k < |ids| ==> CanRefresh(x, ids[k], time)
  {
    if ids == [] then []
    else RefreshMessages(x, ids[..|ids| - 1], time) + [RefreshMessage(x, ids[|ids| - 1], time)]
  }

  /** Announcing a known template again changes nothing the exporter remembers. */
  lemma RefreshKeepsExporter(x: Exporter, id: u16, time: u32)
    requires CanAnnounce(x, id)
    ensures var (y, out) := Protocol.SendSet(x, RefreshSet(x, id), time);
            y == x && out.Ok? == CanRefresh(x, id, time) && (out.Ok? ==> out.value == RefreshMessage(x, id, time))
  {
    hide CreateMessage, AllAnnounceable;
    var rs := RefreshSet(x, id).records;
    assert rs[1..] == [] && UpdateTemplate(x, rs[0]) == x;
    assert UpdateTemplates(x, rs) == UpdateTemplates(x, []) == x;
  }

  /** The template id of the n-th call, counted from zero. */
  function Numeral(n: nat): u16 {
    (256 + n) % 0x1_0000
  }

  lemma NumeralIs(n: nat)
    ensures Numeral(n) == if n % 0x1_0000 < 65280 then n % 0x1_0000 + 256 else n % 0x1_0000 - 65280
    ensures Numeral(n) == ((255 + n) % 0x1_0000 + 1) % 0x1_0000
  {
  }

  lemma OtherNumeral(n: nat, k: nat)
    requires n - 0x1_0000 < k < n
    ensures Numeral(k) != Numeral(n)
  {
  }

  /** An id comes back after 65536 calls and not before. */
  lemma Turn(n: nat)
    ensures forall k: nat :: n - 0x1_0000 < k < n ==> Numeral(k) != Numeral(n)
    ensures n >= 0x1_0000 ==> Numeral(n - 0x1_0000) == Numeral(n)
    ensures Numeral(n) >= 256 <==> n % 0x1_0000 < 65280
    ensures Numeral(n) == TEMPLATE_SET_ID <==> n % 0x1_0000 == 65282
  {
    NumeralIs(n);
    forall k: nat | n - 0x1_0000 < k < n
      ensures Numeral(k) != Numeral(n)
    {
      OtherNumeral(n, k);
    }
  }

  class ExportingProcess {
    const obsDomainId: u32
    var seqNumber: u32
    var templateId: u16
    var templatesMap: map<u16, TemplateValue>
    /** The messages written to the connection, oldest first. */
    var written: seq<seq<byte>>
    /** Whether the mutex of the template table is held between calls; whoever then asks for it waits for ever. */
    var templateMutexHeld: bool
    /** The template ids handed out, oldest first. */
    ghost var issued: seq<u16>

    /** Ids are handed out in order from 256 and start over at zero. */
    ghost predicate Numbered()
      reads this
    {
      templateId == (255 + |issued|) % 0x1_0000 && forall k :: 0 <= k < |issued| ==> issued[k] == Numeral(k)
    }

    ghost function Abs(): Exporter
      reads this
    {
      Exporter(obsDomainId, seqNumber, templatesMap)
    }

    /** `InitExportingProcess`, the connection apart. */
    constructor (obsDomainId: u32)
      ensures Abs() == Exporter(obsDomainId, 0, map[]) && written == [] && Numbered() && issued == []
      ensures !templateMutexHeld
    {
      this.obsDomainId, seqNumber, templateId, templatesMap, written := obsDomainId, 0, 255, map[], [];
      templateMutexHeld := false;
      issued := [];
    }

    /** `NewTemplateID`: an id that was not handed out before, as long as there is one. An id is one that a template
        may have exactly for the first 65280 calls of every 65536; the others are reserved ids, that of template sets
        among them. */
    method NewTemplateId() returns (id: u16)
      requires Numbered()
      modifies this`templateId, this`issued
      ensures Numbered() && issued == old(issued) + [id]
      ensures id in old(issued) <==> |old(issued)| >= 0x1_0000
      ensures id >= 256 <==> |old(issued)| % 0x1_0000 < 65280
      ensures id == TEMPLATE_SET_ID <==> |old(issued)| % 0x1_0000 == 65282
    {
      templateId := (templateId + 1) % 0x1_0000;
      id := templateId;
      NumeralIs(|issued|);
      Turn(|issued|);
      if |issued| >= 0x1_0000 {
        assert issued[|issued| - 0x1_0000] == id;
      }
      issued := issued + [id];
    }

    /** `updateTemplate`: a known id is left alone. It returns only if the mutex is free. */
    method UpdateTemplate(r: Record)
      requires !templateMutexHeld && Belongs(r, Template, false)
      modifies this`templatesMap
      ensures Abs() == Protocol.UpdateTemplate(old(Abs()), ValueOf(r))
    {
      hide BigEndian, Specifiers, MinLength;
      if r.templateId !in templatesMap {
        var ies := [];
        for i := 0 to |r.orderedElementList|
          invariant |r.orderedElementList| == |r.added| && ies == Ies(r.added)[..i]
        {
          ies := ies + [r.orderedElementList[i].value.ie];
        }
        assert Ies(r.added)[..|r.added|] == Ies(r.added);
        templatesMap := templatesMap[r.templateId := TemplateValue(ies, r.minDataRecLength)];
      }
    }

    /** `dataRecSanityCheck`. It returns only if the mutex is free. */
    method DataRecSanityCheck(r: Record) returns (err: bool)
      requires !templateMutexHeld && Belongs(r, Data, false)
      modifies r`buffer, r`cached
      ensures Belongs(r, Data, false) && err == !Sane(Abs(), ValueOf(r))
      ensures err == !(&& r.templateId in templatesMap
                       && |r.added| % 0x1_0000 == |templatesMap[r.templateId].elements| % 0x1_0000
                       && |RecordBytes(r.added)| >= templatesMap[r.templateId].minLength)
    {
      hide FitsSlot, RecordBytes;
      if r.templateId !in templatesMap {
        return true;
      }
      var t := templatesMap[r.templateId];
      if r.fieldCount != |t.elements| % 0x1_0000 {
        return true;
      }
      var b := GetBuffer(r, Data);
      err := |b| < t.minLength;
    }

    /** One record of `SendSet`'s loop: a template is learnt, a data record is checked. */
    method Visit(s: RecordSet, i: nat) returns (err: bool)
      requires s.Valid() && !s.isDecoding && s.setType != Undefined && i < |s.records| && !templateMutexHeld
      modifies this`templatesMap, s.records
      ensures s.Valid() && s.Value() == old(s.Value())
      ensures s.setType == Template ==> !err && Abs() == Protocol.UpdateTemplate(old(Abs()), s.Value().records[i])
      ensures s.setType == Data ==> Abs() == old(Abs()) && err == !Sane(Abs(), s.Value().records[i])
    {
      hide Belongs, Printable, PrintRecords, BigEndian, Sane;
      ghost var vs := ValuesOf(s.records);
      err := false;
      if s.setType == Template {
        UpdateTemplate(s.records[i]);
      } else {
        err := DataRecSanityCheck(s.records[i]);
      }
      forall k | 0 <= k < |s.records| ensures Belongs(s.records[k], s.setType, s.isDecoding)
        && ValueOf(s.records[k]) == vs[k] {
        if s.records[k] != s.records[i] {
          assert unchanged(s.records[k]);
        }
      }
      assert ValuesOf(s.records) == vs;
    }

    /** `createAndSendIPFIXMsg` over a connection that takes every message whole. The sequence number counts the data
        records of the set before the size of the message is known. */
    method CreateAndSendIPFIXMsg(s: RecordSet, time: u32) returns (bytesSent: nat, err: bool)
      requires s.Valid() && !s.isDecoding && s.setType != Undefined && s.headerBuffer == SetHeader(s.Value())
      modifies this`seqNumber, this`written, s.records
      ensures s.Valid() && s.Value() == old(s.Value())
      ensures seqNumber == if s.setType == Data then (old(seqNumber) + |s.records|) % 0x1_0000_0000 else old(seqNumber)
      ensures var m := CreateMessage(s.Value(), obsDomainId, seqNumber, time);
              && err == !m.Ok?
              && written == (if m.Ok? then old(written) + [m.value] else old(written))
              && bytesSent == if m.Ok? then |m.value| else 0
    {
      hide Belongs, Printable, PrintRecords, BigEndian, SetHeader, CreateMessage;
      if s.setType == Data {
        seqNumber := (seqNumber + |s.records|) % 0x1_0000_0000;
      }
      var bytes := CreateIPFIXMsg(s, obsDomainId, seqNumber, time);
      if bytes == null {
        return 0, true;
      }
      written := written + [bytes[..]];
      bytesSent, err := bytes.Length, false;
    }

    /** The loop of `SendSet`: templates are learnt in order, the first refused data record stops it. */
    method VisitAll(s: RecordSet) returns (err: bool)
      requires s.Valid() && !s.isDecoding && s.setType != Undefined && (templateMutexHeld ==> s.records == [])
      modifies this`templatesMap, s.records
      ensures s.Valid() && s.Value() == old(s.Value())
      ensures s.setType == Template ==> !err && Abs() == UpdateTemplates(old(Abs()), s.Value().records)
      ensures s.setType == Data ==> Abs() == old(Abs()) && err == !AllSane(Abs(), s.Value().records)
    {
      hide Belongs, Printable, PrintRecords, BigEndian, Sane, Protocol.UpdateTemplate;
      ghost var x, v := Abs(), s.Value();
      err := false;
      assert v.records[..0] == [];
      for i := 0 to |s.records|
        invariant s.Valid() && s.Value() == v && !err
        invariant Abs() == if v.setType == Template then UpdateTemplates(x, v.records[..i]) else x
        invariant v.setType == Data ==> AllSane(x, v.records[..i])
      {
        err := Visit(s, i);
        UpdateTemplatesStep(x, v.records, i);
        if err {
          return;
        }
      }
      assert v.records[..|v.records|] == v.records;
    }

    /** `SendSet`: every record is visited first, and a refused data record stops it before anything is counted or
        written. It returns only if the mutex is free or no record is visited. */
    method SendSet(s: RecordSet, time: u32) returns (bytesSent: nat, err: bool)
      requires s.Valid() && !s.isDecoding
      requires templateMutexHeld ==> s.setType == Undefined || s.records == []
      modifies this`seqNumber, this`templatesMap, this`written, s`headerBuffer, s.records
      ensures s.Valid() && s.Value() == old(s.Value())
      ensures var (x, out) := Protocol.SendSet(old(Abs()), s.Value(), time);
              && Abs() == x && err == !out.Ok?
              && written == (if out.Ok? then old(written) + [out.value] else old(written))
              && bytesSent == if out.Ok? then |out.value| else 0
      ensures !err ==>
                && |written| == |old(written)| + 1 && written[..|old(written)|] == old(written)
                && HasHeaders(written[|old(written)|], s.Value(), time, seqNumber, obsDomainId)
                && written[|old(written)|][20..] == PrintRecords(s.setType, s.Value().records)
    {
      hide Belongs, Printable, PrintRecords, BigEndian, SetHeader, CreateMessage, AllSane, UpdateTemplates, HasHeaders;
      if s.setType == Undefined {
        return 0, true;
      }
      err := VisitAll(s);
      if err {
        return 0, true;
      }
      KeepsTheRest(old(Abs()), s.Value().records);
      SentOctets(old(Abs()), s.Value(), time);
      s.UpdateLenInHeader();
      bytesSent, err := CreateAndSendIPFIXMsg(s, time);
    }

    static lemma {:induction false} KeepsTheRest(x: Exporter, rs: seq<RecordValue>)
      ensures UpdateTemplates(x, rs).(templates := x.templates) == x
      decreases |rs|
    {
      if rs != [] {
        KeepsTheRest(Protocol.UpdateTemplate(x, rs[0]), rs[1..]);
      }
    }

    /** The set that announces a known template again; none if an element has a type without an empty value. */
    method NewRefreshSet(id: u16, ies: seq<InfoElement>) returns (s: RecordSet?, panicked: bool)
      ensures (s == null <==> !AllAnnounceable(ies)) && (panicked <==> Panics(ies))
      ensures s != null ==>
                && |s.records| == 1 && fresh(s) && fresh(s.records[0])
                && Ready(s, s.records[0], SetValue(Template, id, [RecordValue(id, EmptyElements(ies))]))
    {
      hide IsValueEmpty, ZeroValue, Belongs, PrintRecords, BigEndian;
      panicked := false;
      s := new RecordSet(Template, id, false);
      var es: seq<Element> := [];
      for i := 0 to |ies|
        invariant fresh(s) && s.Valid() && !s.isDecoding && s.records == [] && s.Value() == SetValue(Template, id, [])
        invariant AllAnnounceable(ies[..i]) && es == EmptyElements(ies[..i])
      {
        ZeroValuePanics(ies[i].dataType);
        var value := ZeroValue(ies[i].dataType);
        if !value.Ok? {
          BlockedAt(ies, i);
          return null, value.Panic?;
        }
        es := es + [Element(ies[i], value.value)];
      }
      assert ies[..|ies|] == ies;
      var err := s.AddRecord(es, id);
    }

    /** The first loop of `sendRefreshedTemplates`: one set for every known template, in any order. It holds the mutex,
        and gives it back only if it runs through. */
    method BuildRefreshSets()
        returns (err: bool, panicked: bool, sets: seq<RecordSet>, ghost recs: seq<Record>, ghost ids: seq<u16>)
      requires !templateMutexHeld
      modifies this`templateMutexHeld
      ensures templateMutexHeld == err
      ensures err <==> exists id :: id in templatesMap && !CanAnnounce(Abs(), id)
      ensures err ==>
                exists id ::
                  id in templatesMap && !CanAnnounce(Abs(), id) && panicked == Panics(templatesMap[id].elements)
      ensures !err ==>
                && !panicked
                && AllReady(Abs(), sets, recs, ids, 0) && fresh(sets) && fresh(recs)
                && Distinct(ids) && (forall id :: id in ids <==> id in templatesMap)
    {
      hide Ready, AllAnnounceable, Panics, RefreshSet;
      templateMutexHeld := true;
      var left := templatesMap.Keys;
      err, panicked, sets, recs, ids := false, false, [], [], [];
      while left != {}
        invariant left <= templatesMap.Keys && !err && !panicked && templateMutexHeld
        invariant AllReady(Abs(), sets, recs, ids, 0) && fresh(sets) && fresh(recs)
        invariant Distinct(ids) && forall id :: id in ids <==> id in templatesMap && id !in left
      {
        var id :| id in left;
        var s, died := NewRefreshSet(id, templatesMap[id].elements);
        if s == null {
          assert !CanAnnounce(Abs(), id);
          return true, died, [], [], [];
        }
        RefreshSetOf(Abs(), id);
        left := left - {id};
        sets, recs, ids := sets + [s], recs + [s.records[0]], ids + [id];
      }
      templateMutexHeld := false;
    }

    static lemma RefreshSetOf(x: Exporter, id: u16)
      requires CanAnnounce(x, id)
      ensures RefreshSet(x, id) == SetValue(Template, id, [RecordValue(id, EmptyElements(x.templates[id].elements))])
    {
    }

    /** `sendRefreshedTemplates`: every known template is announced again, once and in some order, by a message with
        the record bytes of its first announcement; nothing else changes, and it fails exactly if some template cannot
        be sent, by a panic only if a template has a 64-bit signed element. If some template cannot even be built the
        mutex stays held, so that nothing is sent any more. It returns only if the mutex is free. */
    method SendRefreshedTemplates(time: u32) returns (err: bool, panicked: bool, ghost ids: seq<u16>)
      requires !templateMutexHeld
      modifies this`seqNumber, this`templatesMap, this`written, this`templateMutexHeld
      ensures Abs() == old(Abs())
      ensures templateMutexHeld <==> exists id :: id in templatesMap && !CanAnnounce(Abs(), id)
      ensures Distinct(ids) && forall k :: 0 <= k < |ids| ==> CanRefresh(Abs(), ids[k], time)
      ensures written == old(written) + RefreshMessages(Abs(), ids, time)
      ensures err <==> exists id :: id in templatesMap && !CanRefresh(Abs(), id, time)
      ensures panicked ==> err && ids == [] && exists id :: id in templatesMap && Panics(templatesMap[id].elements)
      ensures err && !panicked ==>
                exists id :: id in templatesMap && !CanRefresh(Abs(), id, time) && !Panics(templatesMap[id].elements)
      ensures !err ==> forall id :: id in templatesMap ==> id in ids
    {
      hide CanRefresh, CanAnnounce, RefreshSet, Panics, Ready, RefreshMessages;
      var sets;
      ghost var recs, all;
      err, panicked, sets, recs, all := BuildRefreshSets();
      ids := [];
      if err {
        ghost var id :| id in templatesMap && !CanAnnounce(Abs(), id) && panicked == Panics(templatesMap[id].elements);
        NotAnnounced(Abs(), id, time);
        NothingToRefresh(Abs(), time);
        return;
      }
      err, ids := SendAll(Abs(), sets, recs, all, time);
    }

    /** The second loop of `sendRefreshedTemplates`: the sets are sent in order until one cannot be. */
    method SendAll(ghost x: Exporter, sets: seq<RecordSet>, ghost recs: seq<Record>, ghost all: seq<u16>, time: u32)
        returns (err: bool, ghost ids: seq<u16>)
      requires Abs() == x && AllReady(x, sets, recs, all, 0) && !templateMutexHeld
      modifies this`seqNumber, this`templatesMap, this`written, sets, recs
      ensures Abs() == x && |ids| <= |all| && ids == all[..|ids|] && forall k :: 0 <= k < |ids| ==>
              CanRefresh(x, ids[k], time)
      ensures written == old(written) + RefreshMessages(x, ids, time)
      ensures err <==> |ids| < |all|
      ensures err ==> var id := all[|ids|];
              id in x.templates && !CanRefresh(x, id, time) && !Panics(x.templates[id].elements)
    {
      hide CanRefresh, CanAnnounce, RefreshMessage, RefreshMessages, Panics, AllReady;
      ids, err := [], false;
      AnnounceableAll(x, sets, recs, all);
      NothingToRefresh(x, time);
      for j := 0 to |sets|
        invariant !err && Abs() == x && AllReady(x, sets, recs, all, j)
        invariant ids == all[..j] && forall k :: 0 <= k < j ==> CanRefresh(x, all[k], time)
        invariant written == old(written) + RefreshMessages(x, ids, time)
      {
        err := SendRefresh(x, sets, recs, all, j, time);
        if err {
          CannotPanic(x, all[j]);
          return;
        }
        OneMoreRefreshed(x, ids, all[j], time);
        ids := ids + [all[j]];
      }
    }

    static lemma AnnounceableAll(x: Exporter, sets: seq<RecordSet>, recs: seq<Record>, ids: seq<u16>)
      requires AllReady(x, sets, recs, ids, 0)
      ensures |sets| == |recs| == |ids| && forall k :: 0 <= k < |ids| ==> CanAnnounce(x, ids[k])
    {
    }

    static lemma OneMoreRefreshed(x: Exporter, ids: seq<u16>, id: u16, time: u32)
      requires CanRefresh(x, id, time) && forall k :: 0 <= k < |ids| ==> CanRefresh(x, ids[k], time)
      ensures RefreshMessages(x, ids + [id], time) == RefreshMessages(x, ids, time) + [RefreshMessage(x, id, time)]
    {
      hide CanRefresh, RefreshMessage;
      assert (ids + [id])[..|ids|] == ids;
    }

    static lemma NothingToRefresh(x: Exporter, time: u32)
      ensures RefreshMessages(x, [], time) == []
    {
    }

    static lemma CannotPanic(x: Exporter, id: u16)
      requires CanAnnounce(x, id)
      ensures id in x.templates && !Panics(x.templates[id].elements)
    {
    }

    static lemma NotAnnounced(x: Exporter, id: u16, time: u32)
      requires !CanAnnounce(x, id)
      ensures !CanRefresh(x, id, time)
    {
    }

    /** The refresh set at `j` is sent; those after it stay ready. */
    method SendRefresh(ghost x: Exporter, sets: seq<RecordSet>, ghost recs: seq<Record>, ghost ids: seq<u16>, j: nat,
        time: u32)
        returns (err: bool)
      requires Abs() == x && j < |sets| && AllReady(x, sets, recs, ids, j) && !templateMutexHeld
      modifies this`seqNumber, this`templatesMap, this`written, sets, recs
      ensures Abs() == x && AllReady(x, sets, recs, ids, j + 1)
      ensures err == !CanRefresh(x, ids[j], time)
      ensures written == if err then old(written) else old(written) + [RefreshMessage(x, ids[j], time)]
    {
      hide CanRefresh, AllAnnounceable, RefreshSet, RefreshMessage, Protocol.SendSet, Ready;
      RefreshKeepsExporter(x, ids[j], time);
      var _, failed := Forward(sets[j], recs[j], RefreshSet(x, ids[j]), time);
      err := failed;
      forall k | j + 1 <= k < |sets| ensures Ready(sets[k], recs[k], RefreshSet(x, ids[k])) {
        assert sets[j] != sets[k] && recs[j] != recs[k];
        assert unchanged(sets[k]) && unchanged(recs[k]);
      }
    }

    method Forward(s: RecordSet, ghost r: Record, ghost v: SetValue, time: u32) returns (bytesSent: nat, err: bool)
      requires Ready(s, r, v) && !templateMutexHeld
      modifies this`seqNumber, this`templatesMap, this`written, s, r
      ensures AllPrintable(v.setType, v.records)
      ensures var (x, out) := Protocol.SendSet(old(Abs()), v, time);
              && Abs() == x && err == !out.Ok?
              && written == (if out.Ok? then old(written) + [out.value] else old(written))
    {
      hide Protocol.SendSet, Belongs, PrintRecords, BigEndian;
      bytesSent, err := SendSet(s, time);
    }
  }
}
