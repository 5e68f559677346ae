/**
  What the exporter remembers after any sequence of sets, and which data sets it then refuses, said of the sets
  themselves.
 */
module ExporterRuns {
  import opened Bytes
  import opened Elements
  import opened Wire
  import opened Parse
  import opened Protocol

  // ---------- what is remembered ----------

  /** The exporter after these sets, whatever became of each. */
  function Exported(domain: u32, sets: seq<SetValue>): Exporter
    requires forall i :: 0 <= i < |sets| ==> AllPrintable(sets[i].setType, sets[i].records)
  {
    if sets == [] then Exporter(domain, 0, map[])
    else SendSet(Exported(domain, sets[..|sets| - 1]), sets[|sets| - 1], 0).0
  }

  /** The template records of all these sets, in order. */
  function Announcements(sets: seq<SetValue>): seq<RecordValue> {
    if sets == [] then []
    else
      var last := sets[|sets| - 1];
      Announcements(sets[..|sets| - 1]) + if last.setType == Template then last.records else []
  }

  /** The elements of the first of these records that has the id. */
  function First(rs: seq<RecordValue>, id: u16): Option<seq<InfoElement>> {
    if rs == [] then None
    else if rs[0].templateId == id then Some(Ies(rs[0].elements))
    else First(rs[1..], id)
  }

  lemma {:induction false} FirstOfBoth(a: seq<RecordValue>, b: seq<RecordValue>, id: u16)
    ensures First(a + b, id) == if First(a, id).Some? then First(a, id) else First(b, id)
  {
    if a == [] {
      assert a + b == b;
    } else {
      assert (a + b)[1..] == a[1..] + b;
      FirstOfBoth(a[1..], b, id);
    }
  }

  lemma {:induction false} MinimumWraps(ies: seq<InfoElement>)
    ensures MinLength(ies) == TrueMinimum(ies) % 0x1_0000
  {
    if ies != [] {
      var last := ies[|ies| - 1];
      MinimumWraps(ies[..|ies| - 1]);
      Wraps(TrueMinimum(ies[..|ies| - 1]), if last.len == VARIABLE_LENGTH then 1 else last.len);
    }
  }

  predicate BlankText(e: Element) {
    e.value.Str? ==> e.value.text == []
  }

  lemma LeastField(e: Element)
    requires Encodable(e)
    ensures var least := if e.ie.len == VARIABLE_LENGTH then 1 else e.ie.len as nat;
            least <= FieldLength(e) && (least == FieldLength(e) <==> BlankText(e))
  {
  }

  /** The least length of a record of a template is that of the records whose texts are empty. */
  lemma {:induction false} LeastRecord(es: seq<Element>)
    requires AllEncodable(es)
    ensures TrueMinimum(Ies(es)) <= RecordLength(es)
    ensures TrueMinimum(Ies(es)) == RecordLength(es) <==> forall i :: 0 <= i < |es| ==> BlankText(es[i])
  {
    hide Encodable, FieldLength, BlankText;
    if es != [] {
      var n := |es| - 1;
      var front, e := es[..n], es[n];
      assert es == front + [e] && Ies(es)[..n] == Ies(front) && Ies(es)[n] == e.ie;
      RecordLengthAppend(front, [e]);
      assert RecordLength([e]) == FieldLength(e) by {
        assert [e][1..] == [];
      }
      LeastField(e);
      LeastRecord(front);
      assert forall i :: 0 <= i < n ==> front[i] == es[i];
    }
  }

  lemma Wraps(a: nat, b: nat)
    ensures (a % 0x1_0000 + b) % 0x1_0000 == (a + b) % 0x1_0000
  {
  }

  /** What the exporter remembers under an id: these elements, and the least length of a record of them. */
  ghost predicate Remembers(x: Exporter, id: u16, ies: Option<seq<InfoElement>>) {
    && (id in x.templates <==> ies.Some?)
    && (ies.Some? ==>
          x.templates[id].elements == ies.value && x.templates[id].minLength == TrueMinimum(ies.value) % 0x1_0000)
  }

  lemma {:induction false} TemplatesRemembered(x: Exporter, rs: seq<RecordValue>, id: u16,
      before: Option<seq<InfoElement>>)
    requires Remembers(x, id, before)
    ensures Remembers(UpdateTemplates(x, rs), id, if before.Some? then before else First(rs, id))
    decreases |rs|
  {
    hide MinLength, TrueMinimum;
    if rs != [] {
      var r := rs[0];
      MinimumWraps(Ies(r.elements));
      TemplatesRemembered(UpdateTemplate(x, r), rs[1..], id,
        if before.Some? || r.templateId != id then before else Some(Ies(r.elements)));
    }
  }

  /** After any sequence of sets, refused and oversized ones included, the exporter knows exactly the ids that some
      template record has had, each with the elements of the first such record. */
  lemma {:induction false} FirstIsRemembered(domain: u32, sets: seq<SetValue>, id: u16)
    requires forall i :: 0 <= i < |sets| ==> AllPrintable(sets[i].setType, sets[i].records)
    ensures Remembers(Exported(domain, sets), id, First(Announcements(sets), id))
  {
    hide AllPrintable, CreateMessage, UpdateTemplates, First, AllSane, Remembers;
    if sets == [] {
      NothingRemembered(domain, id);
    } else {
      var p, last := sets[..|sets| - 1], sets[|sets| - 1];
      FirstIsRemembered(domain, p, id);
      var x := Exported(domain, p);
      if last.setType == Template {
        TemplatesRemembered(x, last.records, id, First(Announcements(p), id));
        FirstOfBoth(Announcements(p), last.records, id);
      } else {
        assert Announcements(p) + [] == Announcements(p);
        SameTemplates(x, Exported(domain, sets), id, First(Announcements(p), id));
      }
    }
  }

  lemma NothingRemembered(domain: u32, id: u16)
    ensures Remembers(Exporter(domain, 0, map[]), id, First([], id))
  {
  }

  lemma SameTemplates(x: Exporter, y: Exporter, id: u16, ies: Option<seq<InfoElement>>)
    requires x.templates == y.templates
    ensures Remembers(y, id, ies) == Remembers(x, id, ies)
  {
  }

  // ---------- what is refused ----------

  /** A record that does not fit what was announced first under its id: nothing was, or another number of fields, modulo
      65536, or more octets at least, modulo 65536, than the record has. */
  ghost predicate Misfits(sets: seq<SetValue>, r: RecordValue)
    requires AllFit(r.elements)
  {
    match First(Announcements(sets), r.templateId)
    case None => true
    case Some(ies) =>
      || (|r.elements| - |ies|) % 0x1_0000 != 0
      || |RecordBytes(r.elements)| < TrueMinimum(ies) % 0x1_0000
  }

  lemma SameCount(a: nat, b: nat)
    ensures (a - b) % 0x1_0000 == 0 <==> a % 0x1_0000 == b % 0x1_0000
  {
  }

  lemma MisfitIsInsane(domain: u32, sets: seq<SetValue>, r: RecordValue)
    requires forall i :: 0 <= i < |sets| ==> AllPrintable(sets[i].setType, sets[i].records)
    requires AllFit(r.elements)
    ensures Misfits(sets, r) <==> !Sane(Exported(domain, sets), r)
  {
    hide AllFit, Exported, First, TrueMinimum, RecordBytes, RecordLength;
    FirstIsRemembered(domain, sets, r.templateId);
    var first := First(Announcements(sets), r.templateId);
    if first.Some? {
      SameCount(|r.elements|, |first.value|);
    }
  }

  /** After any sequence of sets, a data set is refused, with nothing counted or written, exactly if some record of it
      does not fit what was announced first under its id; otherwise all its records are counted, and it is written
      exactly if it fits 65535 octets. */
  lemma RefusedExactly(domain: u32, sets: seq<SetValue>, s: SetValue, time: u32)
    requires forall i :: 0 <= i < |sets| ==> AllPrintable(sets[i].setType, sets[i].records)
    requires s.setType == Data && AllPrintable(Data, s.records)
    ensures var x, (y, out) := Exported(domain, sets), SendSet(Exported(domain, sets), s, time);
            if exists i :: 0 <= i < |s.records| && Printable(Data, s.records[i]) && Misfits(sets, s.records[i]) then
              y == x && out == Error
            else
              && y == x.(seqNumber := (x.seqNumber + |s.records|) % 0x1_0000_0000)
              && (out.Ok? <==> 20 + |PrintRecords(Data, s.records)| <= 65535)
  {
    hide Exported, Misfits, Sane, PrintRecords, AllFit;
    forall i | 0 <= i < |s.records|
      ensures Printable(Data, s.records[i])
      ensures Misfits(sets, s.records[i]) <==> !Sane(Exported(domain, sets), s.records[i])
    {
      MisfitIsInsane(domain, sets, s.records[i]);
    }
  }
}
