/**
  Every run of an exporter and a collector joined by an ordered lossless byte stream: sets are sent at any time, the
  collector reads messages at any time, and refreshed templates may be sent again.
 */
module SessionRuns {
  import opened Bytes
  import opened Elements
  import opened Wire
  import opened Parse
  import opened Protocol

  /** What was sent: the set with the numbers in its message header. */
  datatype Sent = Sent(contents: SetValue, seqNumber: u32, time: u32)

  /** The two processes, the bytes between them, and what was sent, counted and handed on so far. */
  datatype Session = Session(
    exporter: Exporter, pipe: seq<byte>, collector: Collector,
    sent: seq<Sent>, counted: nat, got: seq<Outcome<Message>>)

  datatype Event = Send(contents: SetValue, time: u32) | Deliver

  function Start(domain: u32): Session {
    Session(Exporter(domain, 0, map[]), [], Collector(map[], 0), [], 0, [])
  }

  /** What the exporter may be given: template sets of one record that do not redefine an id and that the collector can
      learn, whether or not they fit a message; and data sets of any contents, conforming or not, none under the id of
      template sets. */
  predicate Admissible(reg: Index, n: Session, ev: Event) {
    match ev
    case Deliver => true
    case Send(s, time) =>
      && AllPrintable(s.setType, s.records)
      && if s.setType == Template then LearnableSet(reg, Definitions(n.exporter), s)
         else SendSet(n.exporter, s, time).1.Ok? ==> s.templateId != TEMPLATE_SET_ID
  }

  /** An outcome after which the collector reads no more. */
  predicate Stops(m: Outcome<Message>) {
    m.Panic? || m.Diverges?
  }

  predicate Stopped(n: Session) {
    n.got != [] && Stops(n.got[|n.got| - 1])
  }

  function Step(reg: Index, n: Session, ev: Event): Session
    requires Admissible(reg, n, ev)
  {
    match ev
    case Send(s, time) =>
      var (x, out) := SendSet(n.exporter, s, time);
      var counted := n.counted + if s.setType == Data && AllSane(n.exporter, s.records) then |s.records| else 0;
      if out.Ok? then
        n.(exporter := x, counted := counted, pipe := n.pipe + out.value, sent := n.sent + [Sent(s, x.seqNumber, time)])
      else n.(exporter := x, counted := counted)
    case Deliver =>
      if Stopped(n) || |n.pipe| < 4 || U16At(n.pipe, 2) == 0 || |n.pipe| < U16At(n.pipe, 2) then n
      else
        var k := U16At(n.pipe, 2);
        var (col, m) := DecodePacket(reg, n.collector, n.pipe[..k]);
        n.(pipe := n.pipe[k..], collector := col, got := n.got + [m])
  }

  // ---------- the invariant ----------

  /** The templates announced by the sets sent. */
  function Announced(sent: seq<Sent>): Known {
    if sent == [] then map[] else Learn(Announced(sent[..|sent| - 1]), sent[|sent| - 1].contents)
  }

  ghost predicate FairAt(reg: Index, sent: seq<Sent>, i: nat)
    requires i < |sent|
  {
    FairSet(reg, Announced(sent[..i]), sent[i].contents)
  }

  /** The set is one that can be learnt, or it conforms to the template announced before it. */
  ghost predicate GoodAt(reg: Index, sent: seq<Sent>, i: nat)
    requires i < |sent|
  {
    GoodSet(reg, Announced(sent[..i]), sent[i].contents)
  }

  /** The bytes written for a set, none if it was not sent. */
  function BytesOf(domain: u32, x: Sent): seq<byte> {
    if !AllPrintable(x.contents.setType, x.contents.records) then []
    else
      var m := CreateMessage(x.contents, domain, x.seqNumber, x.time);
      if m.Ok? then m.value else []
  }

  /** The set was sent: its message was built. */
  predicate WasBuilt(domain: u32, x: Sent) {
    AllPrintable(x.contents.setType, x.contents.records) && CreateMessage(x.contents, domain, x.seqNumber, x.time).Ok?
  }

  ghost predicate BuiltAt(reg: Index, domain: u32, sent: seq<Sent>, i: nat)
    requires i < |sent|
  {
    FairAt(reg, sent, i) && WasBuilt(domain, sent[i])
  }

  /** The bytes of the sets still under way. */
  function InFlight(domain: u32, rest: seq<Sent>): seq<byte> {
    if rest == [] then [] else BytesOf(domain, rest[0]) + InFlight(domain, rest[1..])
  }

  /** What becomes of set `i`: the message handed on, or the failure. */
  ghost function Expected(reg: Index, domain: u32, sent: seq<Sent>, i: nat): Outcome<Message>
    requires i < |sent| && BuiltAt(reg, domain, sent, i)
  {
    Handed(reg, Announced(sent[..i]), sent[i].contents, domain, sent[i].seqNumber, sent[i].time)
  }

  function HandedOn(got: seq<Outcome<Message>>): nat {
    if got == [] then 0 else HandedOn(got[..|got| - 1]) + if got[|got| - 1].Ok? then 1 else 0
  }

  /** The templates whose announcement fits a message. */
  function Sendable(known: Known): Known {
    map id | id in known && Fits(known[id]) :: known[id]
  }

  ghost predicate AllBuilt(reg: Index, n: Session) {
    forall i :: 0 <= i < |n.sent| ==> BuiltAt(reg, n.exporter.domain, n.sent, i)
  }

  ghost predicate Inv(reg: Index, n: Session) {
    && AllBuilt(reg, n) && |n.got| <= |n.sent|
    && Sendable(Definitions(n.exporter)) == Announced(n.sent)
    && Measured(n.exporter)
    && n.exporter.seqNumber == n.counted % 0x1_0000_0000
    && n.pipe == InFlight(n.exporter.domain, n.sent[|n.got|..])
    && Knows(n.collector, n.exporter.domain, Announced(n.sent[..|n.got|]))
    && n.collector.received == HandedOn(n.got) % 0x1_0000_0000_0000_0000
    && (forall i :: 0 <= i < |n.got| ==> n.got[i] == Expected(reg, n.exporter.domain, n.sent, i))
    && forall i :: 0 <= i < |n.got| - 1 ==> !Stops(n.got[i])
  }

  // ---------- sending ----------

  lemma BuiltExtends(reg: Index, domain: u32, sent: seq<Sent>, x: Sent, i: nat)
    requires i < |sent|
    ensures BuiltAt(reg, domain, sent + [x], i) == BuiltAt(reg, domain, sent, i)
    ensures BuiltAt(reg, domain, sent, i) ==> Expected(reg, domain, sent + [x], i) == Expected(reg, domain, sent, i)
  {
    hide FairSet, WasBuilt, Handed, Announced;
    assert (sent + [x])[..i] == sent[..i];
  }

  lemma {:induction false} InFlightExtends(domain: u32, rest: seq<Sent>, x: Sent)
    ensures InFlight(domain, rest + [x]) == InFlight(domain, rest) + BytesOf(domain, x)
  {
    hide BytesOf;
    if rest == [] {
      assert rest + [x] == [x] && [x][1..] == [];
    } else {
      InFlightExtends(domain, rest[1..], x);
      assert (rest + [x])[0] == rest[0] && (rest + [x])[1..] == rest[1..] + [x];
      Associates(BytesOf(domain, rest[0]), InFlight(domain, rest[1..]), BytesOf(domain, x));
    }
  }

  ghost predicate Measured(x: Exporter) {
    forall id :: id in x.templates ==> x.templates[id].minLength == MinLength(x.templates[id].elements)
  }

  /** A set keeps what the exporter can announce in step with what it has announced. */
  lemma DefinitionsFollow(reg: Index, x: Exporter, s: SetValue)
    requires FairSet(reg, Definitions(x), s)
    ensures var y := Protocol.Prepared(x, s);
            && y.domain == x.domain && (Measured(x) ==> Measured(y))
            && (s.setType == Template ==>
                  && y.seqNumber == x.seqNumber
                  && Sendable(Definitions(y)) ==
                     if Fits(Ies(s.records[0].elements)) then Learn(Sendable(Definitions(x)), s)
                     else Sendable(Definitions(x)))
            && (s.setType == Data ==> Definitions(y) == Definitions(x) && Learn(Sendable(Definitions(x)), s) ==
                                                                         Sendable(Definitions(x)))
  {
    hide AllRegistered, AllAnnounceable, MinLength, Fits;
    if s.setType == Template {
      LearntOnce(x, s);
      TemplateFollows(x, s);
    }
  }

  lemma TemplateFollows(x: Exporter, s: SetValue)
    requires s.setType == Template && |s.records| == 1
    requires var r := s.records[0];
             r.templateId in x.templates ==> x.templates[r.templateId].elements == Ies(r.elements)
    ensures Sendable(Definitions(UpdateTemplate(x, s.records[0]))) ==
            if Fits(Ies(s.records[0].elements)) then Learn(Sendable(Definitions(x)), s) else Sendable(Definitions(x))
  {
    hide MinLength, Fits;
  }

  lemma StaysFair(reg: Index, known: Known, s: SetValue)
    requires LearnableSet(reg, known, s)
    ensures FairSet(reg, known, s) && FairSet(reg, Sendable(known), s)
  {
    hide AllRegistered, AllAnnounceable, Fits;
  }

  lemma SendInv(reg: Index, n: Session, s: SetValue, time: u32)
    requires Inv(reg, n) && Admissible(reg, n, Send(s, time))
    ensures Inv(reg, Step(reg, n, Send(s, time)))
  {
    hide Inv, LearnableSet, CreateMessage, Step;
    var (x, out) := SendSet(n.exporter, s, time);
    if out.Ok? {
      if s.setType == Template {
        StaysFair(reg, Definitions(n.exporter), s);
      }
      SentInv(reg, n, s, time);
    } else if s.setType == Template {
      UnsentInv(reg, n, s, time);
    } else {
      RefusedInv(reg, n, s, time);
    }
  }

  /** A template set that does not fit a message is remembered by the exporter, and that is all it does. */
  lemma UnsentInv(reg: Index, n: Session, s: SetValue, time: u32)
    requires Inv(reg, n) && AllPrintable(s.setType, s.records) && s.setType == Template
    requires Admissible(reg, n, Send(s, time)) && !SendSet(n.exporter, s, time).1.Ok?
    ensures Step(reg, n, Send(s, time)) == n.(exporter := UpdateTemplates(n.exporter, s.records))
    ensures Inv(reg, Step(reg, n, Send(s, time)))
  {
    hide LearnableSet, CreateMessage, Learn, Handed, Knows, MinLength, Announced, Fits, BuiltAt, Expected, InFlight,
      Sendable, Definitions, Measured;
    var known, y := Definitions(n.exporter), Protocol.Prepared(n.exporter, s);
    StaysFair(reg, known, s);
    DefinitionsFollow(reg, n.exporter, s);
    SentIfFits(reg, known, s, y.domain, y.seqNumber, time);
  }

  /** A refused data set changes nothing but the count of data records, which is advanced before the size check. */
  lemma RefusedInv(reg: Index, n: Session, s: SetValue, time: u32)
    requires Inv(reg, n) && AllPrintable(s.setType, s.records) && s.setType != Template
             && !SendSet(n.exporter, s, time).1.Ok?
    requires Admissible(reg, n, Send(s, time))
    ensures var gain := if s.setType == Data && AllSane(n.exporter, s.records) then |s.records| else 0;
            Step(reg, n, Send(s, time)) ==
            n.(counted := n.counted + gain,
              exporter := n.exporter.(seqNumber := (n.exporter.seqNumber + gain) % 0x1_0000_0000))
    ensures Inv(reg, Step(reg, n, Send(s, time)))
  {
    hide CreateMessage, Learn, Handed, Knows, MinLength, Announced, Sane, Fits, BuiltAt, Expected, InFlight;
    var next := Step(reg, n, Send(s, time));
    assert next.exporter.templates == n.exporter.templates && next.exporter.domain == n.exporter.domain;
    assert Definitions(next.exporter) == Definitions(n.exporter);
    if AllSane(n.exporter, s.records) && s.setType == Data {
      CountWraps(n.counted, |s.records|);
    }
  }

  lemma CountWraps(a: nat, b: nat)
    ensures (a % 0x1_0000_0000 + b) % 0x1_0000_0000 == (a + b) % 0x1_0000_0000
  {
  }

  lemma SentInv(reg: Index, n: Session, s: SetValue, time: u32)
    requires Inv(reg, n) && Admissible(reg, n, Send(s, time)) && AllPrintable(s.setType, s.records)
    requires SendSet(n.exporter, s, time).1.Ok?
    requires FairSet(reg, Definitions(n.exporter), s) && FairSet(reg, Sendable(Definitions(n.exporter)), s)
    ensures Inv(reg, Step(reg, n, Send(s, time)))
  {
    hide Learn, Knows, MinLength, BuiltAt, Expected, Announced, BytesOf, InFlight, WasBuilt, Definitions, Sendable,
      Step, Admissible, SendSet, LearnableSet, Measured;
    DefinitionsFollow(reg, n.exporter, s);
    FitsIfSent(reg, n.exporter, s, time);
    StepSent(reg, n, s, time);
    SentExtends(reg, n, Sent(s, Protocol.Prepared(n.exporter, s).seqNumber, time));
    CountWraps(n.counted, |s.records|);
  }

  lemma FitsIfSent(reg: Index, x: Exporter, s: SetValue, time: u32)
    requires FairSet(reg, Definitions(x), s) && AllPrintable(s.setType, s.records) && SendSet(x, s, time).1.Ok?
    ensures s.setType == Template || s.setType == Data
    ensures s.setType == Template ==> |s.records| == 1 && Fits(Ies(s.records[0].elements))
  {
    hide AllRegistered, AllAnnounceable, CreateMessage, Fits;
    if s.setType == Template {
      var y := Protocol.Prepared(x, s);
      SentIfFits(reg, Definitions(x), s, y.domain, y.seqNumber, time);
    }
  }

  /** The session after a set was sent. */
  lemma StepSent(reg: Index, n: Session, s: SetValue, time: u32)
    requires Admissible(reg, n, Send(s, time)) && SendSet(n.exporter, s, time).1.Ok? && s.setType != Undefined
    requires Protocol.Prepared(n.exporter, s).domain == n.exporter.domain
    ensures var y := Protocol.Prepared(n.exporter, s);
            var x := Sent(s, y.seqNumber, time);
            && WasBuilt(n.exporter.domain, x)
            && Step(reg, n, Send(s, time)) ==
               n.(exporter := y, counted := n.counted + (if s.setType == Data then |s.records| else 0),
                  pipe := n.pipe + BytesOf(n.exporter.domain, x), sent := n.sent + [x])
  {
    hide LearnableSet, CreateMessage, AllPrintable, AllSane, UpdateTemplates;
  }

  /** What one more set sent does to everything that is said about the sets sent. */
  lemma SentExtends(reg: Index, n: Session, x: Sent)
    requires Inv(reg, n) && FairSet(reg, Announced(n.sent), x.contents) && WasBuilt(n.exporter.domain, x)
    ensures var sent, domain := n.sent + [x], n.exporter.domain;
            && (forall i :: 0 <= i < |sent| ==> BuiltAt(reg, domain, sent, i))
            && (forall i :: 0 <= i < |n.got| ==> n.got[i] == Expected(reg, domain, sent, i))
            && InFlight(domain, sent[|n.got|..]) == n.pipe + BytesOf(domain, x)
            && Announced(sent[..|n.got|]) == Announced(n.sent[..|n.got|])
               && Announced(sent) == Learn(Announced(n.sent), x.contents)
  {
    hide FairSet, Learn, Knows, WasBuilt, Definitions, Sendable, Measured, BytesOf, InFlight, Announced, BuiltAt,
      Expected;
    var sent, domain := n.sent + [x], n.exporter.domain;
    LastBuilt(reg, domain, n.sent, x);
    forall i | 0 <= i < |n.sent|
      ensures BuiltAt(reg, domain, sent, i) && Expected(reg, domain, sent, i) == Expected(reg, domain, n.sent, i)
    {
      assert BuiltAt(reg, domain, n.sent, i);
      BuiltExtends(reg, domain, n.sent, x, i);
    }
    InFlightExtends(domain, n.sent[|n.got|..], x);
    assert sent[|n.got|..] == n.sent[|n.got|..] + [x];
    assert sent[..|n.got|] == n.sent[..|n.got|];
  }

  lemma LastBuilt(reg: Index, domain: u32, sent: seq<Sent>, x: Sent)
    requires FairSet(reg, Announced(sent), x.contents) && WasBuilt(domain, x)
    ensures BuiltAt(reg, domain, sent + [x], |sent|) && Announced(sent + [x]) == Learn(Announced(sent), x.contents)
  {
    hide FairSet, Learn, WasBuilt;
    assert (sent + [x])[..|sent|] == sent;
  }

  // ---------- delivering ----------

  lemma InFlightFront(domain: u32, rest: seq<Sent>)
    requires rest != [] && WasBuilt(domain, rest[0])
    ensures var pipe := InFlight(domain, rest);
            && |pipe| >= 4 && 20 <= U16At(pipe, 2) <= |pipe|
            && pipe[..U16At(pipe, 2)] == BytesOf(domain, rest[0])
            && pipe[U16At(pipe, 2)..] == InFlight(domain, rest[1..])
  {
    hide CreateMessage, FromBigEndian;
    MessageFilled(rest[0].contents, domain, rest[0].seqNumber, rest[0].time);
    var m, more := BytesOf(domain, rest[0]), InFlight(domain, rest[1..]);
    assert (m + more)[2..4] == m[2..4];
    assert (m + more)[..|m|] == m && (m + more)[|m|..] == more;
  }

  /** The next message is the one of the next set, and what becomes of it is what is expected. */
  lemma DeliverOne(reg: Index, n: Session)
    requires Inv(reg, n) && |n.got| < |n.sent| && !Stopped(n)
    ensures BuiltAt(reg, n.exporter.domain, n.sent, |n.got|)
    ensures var k, domain, next := |n.got|, n.exporter.domain, Step(reg, n, Deliver);
            var m := Expected(reg, domain, n.sent, k);
            && next == n.(pipe := next.pipe, collector := next.collector, got := n.got + [m])
            && next.pipe == InFlight(domain, n.sent[k + 1..])
            && Knows(next.collector, domain, Announced(n.sent[..k + 1]))
            && next.collector.received ==
               (n.collector.received + if m.Ok? then 1 else 0) % 0x1_0000_0000_0000_0000
  {
    hide FairSet, CreateMessage, Learn, DecodePacket, Handed, Knows, AllPrintable, U16At, InFlight, Definitions,
      Sendable, Measured;
    var k, domain := |n.got|, n.exporter.domain;
    assert BuiltAt(reg, domain, n.sent, k);
    InFlightFront(domain, n.sent[k..]);
    assert n.sent[k..][1..] == n.sent[k + 1..];
    FairMessage(reg, n.collector, Announced(n.sent[..k]), n.sent[k].contents, domain, n.sent[k].seqNumber,
      n.sent[k].time);
    assert n.sent[..k + 1][..k] == n.sent[..k];
    assert Announced(n.sent[..k + 1]) == Learn(Announced(n.sent[..k]), n.sent[k].contents);
  }

  lemma DeliverInv(reg: Index, n: Session)
    requires Inv(reg, n)
    ensures Inv(reg, Step(reg, n, Deliver))
    ensures |n.got| < |n.sent| && !Stopped(n) ==> |Step(reg, n, Deliver).got| == |n.got| + 1
  {
    hide BuiltAt, Expected, DecodePacket, Knows, U16At, InFlight, Definitions, Sendable, Measured, Announced, Step;
    if |n.got| == |n.sent| || Stopped(n) {
      NothingToDeliver(reg, n);
    } else {
      DeliverOne(reg, n);
      HandedOnExtends(n.got, Expected(reg, n.exporter.domain, n.sent, |n.got|));
    }
  }

  lemma HandedOnExtends(got: seq<Outcome<Message>>, m: Outcome<Message>)
    ensures HandedOn(got + [m]) == HandedOn(got) + if m.Ok? then 1 else 0
  {
    assert (got + [m])[..|got|] == got;
  }

  lemma NothingToDeliver(reg: Index, n: Session)
    requires Stopped(n) || (|n.got| == |n.sent| && n.pipe == InFlight(n.exporter.domain, n.sent[|n.got|..]))
    ensures Step(reg, n, Deliver) == n
  {
    hide DecodePacket;
    assert Stopped(n) || n.pipe == [];
  }

  // ---------- runs ----------

  /** The session after a run, if every event of it was admissible. */
  ghost function Run(reg: Index, domain: u32, evs: seq<Event>): Option<Session> {
    if evs == [] then Some(Start(domain))
    else
      var p := Run(reg, domain, evs[..|evs| - 1]);
      if p.Some? && Admissible(reg, p.value, evs[|evs| - 1]) then Some(Step(reg, p.value, evs[|evs| - 1])) else None
  }

  lemma {:induction false} RunInv(reg: Index, domain: u32, evs: seq<Event>)
    requires Run(reg, domain, evs).Some?
    ensures var n := Run(reg, domain, evs).value; Inv(reg, n) && n.exporter.domain == domain
  {
    hide Inv, Admissible, Step;
    if evs == [] {
      StartInv(reg, domain);
    } else {
      var n, ev := Run(reg, domain, evs[..|evs| - 1]).value, evs[|evs| - 1];
      RunInv(reg, domain, evs[..|evs| - 1]);
      SameDomain(reg, n, ev);
      match ev
      case Send(s, time) => SendInv(reg, n, s, time);
      case Deliver => DeliverInv(reg, n);
    }
  }

  lemma StartInv(reg: Index, domain: u32)
    ensures Inv(reg, Start(domain))
  {
    assert Definitions(Start(domain).exporter) == map[];
  }

  lemma SameDomain(reg: Index, n: Session, ev: Event)
    requires Admissible(reg, n, ev)
    ensures Step(reg, n, ev).exporter.domain == n.exporter.domain
  {
    hide CreateMessage, DecodePacket, LearnableSet, ConformingSet, AllSane;
    if ev.Send? && ev.contents.setType == Template {
      TemplatesKeepDomain(n.exporter, ev.contents.records);
    }
  }

  lemma {:induction false} TemplatesKeepDomain(x: Exporter, rs: seq<RecordValue>)
    ensures UpdateTemplates(x, rs).domain == x.domain && UpdateTemplates(x, rs).seqNumber == x.seqNumber
    decreases |rs|
  {
    if rs != [] {
      TemplatesKeepDomain(UpdateTemplate(x, rs[0]), rs[1..]);
    }
  }

  /** The message of a good set: each data record with the values that were sent, each template with its elements. */
  ghost function AsSent(reg: Index, domain: u32, sent: seq<Sent>, i: nat): Message
    requires i < |sent| && GoodAt(reg, sent, i) && WasBuilt(domain, sent[i])
  {
    Delivered(reg, Announced(sent[..i]), sent[i].contents, domain, sent[i].seqNumber, sent[i].time)
  }

  /** Exporter and collector have the same elements for the template announced by set `i`, those that were sent. */
  ghost predicate AgreeOn(n: Session, i: nat)
    requires i < |n.sent| && |n.sent[i].contents.records| == 1
  {
    var r := n.sent[i].contents.records[0];
    && r.templateId in n.exporter.templates && n.exporter.templates[r.templateId].elements == Ies(r.elements)
    && TemplateOf(n.collector.templates, n.exporter.domain, r.templateId) == Some(Ies(r.elements))
  }

  /** In every run, whatever the data sets sent: the outcomes are, in order, those of the first sets sent; every set
      that is good for what was announced before it is handed on as it was sent; reading goes on after every outcome
      but a panic or an endless loop; for every template set handed on the collector's elements are the exporter's; the
      bytes not yet read are those of the remaining sets; and once everything sent is delivered, the collector's
      templates are those of the exporter whose announcement fits a message. */
  lemma EverythingArrives(reg: Index, domain: u32, evs: seq<Event>)
    requires Run(reg, domain, evs).Some?
    ensures var n := Run(reg, domain, evs).value;
            && AllBuilt(reg, n) && n.exporter.domain == domain && |n.got| <= |n.sent|
            && n.pipe == InFlight(domain, n.sent[|n.got|..])
            && (forall i :: 0 <= i < |n.got| ==>
                  && n.got[i] == Expected(reg, domain, n.sent, i)
                  && (GoodAt(reg, n.sent, i) ==> n.got[i] == Ok(AsSent(reg, domain, n.sent, i)))
                  && (i < |n.got| - 1 ==> !Stops(n.got[i]))
                  && (n.sent[i].contents.setType == Template ==>
                        |n.sent[i].contents.records| == 1 && n.got[i].Ok? && AgreeOn(n, i)))
            && (|n.got| == |n.sent| ==> Knows(n.collector, domain, Sendable(Definitions(n.exporter))))
  {
    hide Run, BuiltAt, Expected, InFlight, Knows, Announced, Definitions, Sendable, Measured, AgreeOn, GoodAt, AsSent;
    RunInv(reg, domain, evs);
    var n := Run(reg, domain, evs).value;
    assert n.sent[..|n.sent|] == n.sent;
    forall i | 0 <= i < |n.got|
      ensures GoodAt(reg, n.sent, i) ==>
                WasBuilt(domain, n.sent[i]) && Expected(reg, domain, n.sent, i) == Ok(AsSent(reg, domain, n.sent, i))
      ensures n.sent[i].contents.setType == Template ==>
                |n.sent[i].contents.records| == 1 && GoodAt(reg, n.sent, i) && AgreeOn(n, i)
    {
      assert BuiltAt(reg, domain, n.sent, i);
      GoodAsSent(reg, domain, n.sent, i);
      if n.sent[i].contents.setType == Template {
        TemplatesAgree(reg, n, i);
      }
    }
  }

  lemma GoodAsSent(reg: Index, domain: u32, sent: seq<Sent>, i: nat)
    requires i < |sent| && BuiltAt(reg, domain, sent, i)
    ensures GoodAt(reg, sent, i) ==>
              WasBuilt(domain, sent[i]) && Expected(reg, domain, sent, i) == Ok(AsSent(reg, domain, sent, i))
  {
    hide GoodSet, FairSet, Announced, Handed, Delivered, PrintRecords;
    if GoodAt(reg, sent, i) {
      GoodIsDelivered(reg, Announced(sent[..i]), sent[i].contents, domain, sent[i].seqNumber, sent[i].time);
    }
  }

  lemma TemplatesAgree(reg: Index, n: Session, i: nat)
    requires Inv(reg, n) && i < |n.got| && n.sent[i].contents.setType == Template
    ensures |n.sent[i].contents.records| == 1 && GoodAt(reg, n.sent, i) && AgreeOn(n, i)
  {
    hide BuiltAt, Expected, InFlight, Announced, Measured, Fits, AllRegistered, AllAnnounceable;
    assert BuiltAt(reg, n.exporter.domain, n.sent, i);
    AnnouncedStays(reg, n.exporter.domain, n.sent, i, |n.sent|);
    AnnouncedStays(reg, n.exporter.domain, n.sent, i, |n.got|);
    assert n.sent[..|n.sent|] == n.sent;
    FairTemplate(reg, n.exporter.domain, n.sent, i);
    var id := n.sent[i].contents.records[0].templateId;
    assert id in Sendable(Definitions(n.exporter));
  }

  lemma FairTemplate(reg: Index, domain: u32, sent: seq<Sent>, i: nat)
    requires i < |sent| && BuiltAt(reg, domain, sent, i) && sent[i].contents.setType == Template
    ensures GoodAt(reg, sent, i) && |sent[i].contents.records| == 1
  {
    hide AllRegistered, AllAnnounceable, Announced;
  }

  /** Every element of the registry has the length of its type. */
  ghost predicate Described(reg: Index) {
    forall e, id :: Lookup(reg, e, id).Ok? ==> WellDescribed(Lookup(reg, e, id).value)
  }

  lemma {:induction false} AnnouncedDescribed(reg: Index, domain: u32, sent: seq<Sent>, n: nat)
    requires n <= |sent| && Described(reg) && forall j :: 0 <= j < |sent| ==> BuiltAt(reg, domain, sent, j)
    ensures Ordinary(Announced(sent[..n]))
  {
    hide WasBuilt, AllRegistered, AllDescribed, AllAnnounceable;
    if n > 0 {
      AnnouncedDescribed(reg, domain, sent, n - 1);
      assert BuiltAt(reg, domain, sent, n - 1);
      assert sent[..n][..n - 1] == sent[..n - 1] && sent[..n][n - 1] == sent[n - 1];
      var s := sent[n - 1].contents;
      if s.setType == Template {
        RegisteredDescribed(reg, Ies(s.records[0].elements));
      }
    }
  }

  /** Templates are not empty and of elements as the registry describes them. */
  ghost predicate Ordinary(known: Known) {
    forall id :: id in known ==> known[id] != [] && AllDescribed(known[id])
  }

  lemma RegisteredDescribed(reg: Index, ies: seq<InfoElement>)
    requires Described(reg) && AllRegistered(reg, ies)
    ensures AllDescribed(ies)
  {
    hide WellDescribed;
    assert forall i :: 0 <= i < |ies| ==> Registered(reg, ies[i]);
  }

  /** In every run a data set that was read gave the records that were sent exactly if it conforms to the template
      announced before it under its id. */
  lemma OnlyConformingArrive(reg: Index, domain: u32, evs: seq<Event>, i: nat)
    requires Run(reg, domain, evs).Some? && Described(reg)
    requires var n := Run(reg, domain, evs).value; i < |n.got| && i < |n.sent| && n.sent[i].contents.setType == Data
    ensures var n := Run(reg, domain, evs).value;
            n.got[i].Ok? && Same(n.got[i].value.contents.records, n.sent[i].contents.records) <==>
            ConformingSet(Announced(n.sent[..i]), n.sent[i].contents)
  {
    hide Run, InFlight, Knows, Announced, Definitions, Sendable, Measured, ReadRecords, PrintRecords, Same, AllConform,
      AllDescribed, CreateMessage, Described;
    RunInv(reg, domain, evs);
    var n := Run(reg, domain, evs).value;
    var known, c := Announced(n.sent[..i]), n.sent[i].contents;
    assert BuiltAt(reg, domain, n.sent, i) && n.got[i] == Expected(reg, domain, n.sent, i);
    AnnouncedDescribed(reg, domain, n.sent, i);
    if c.templateId in known {
      ArrivesExactly(reg, known, c);
    }
  }

  // ---------- refresh ----------

  /** A refresh may be sent at any point of a run, does not change the exporter's templates, and prints the same record
      bytes as the set that first announced the template. */
  lemma RefreshRepeats(reg: Index, n: Session, i: nat, time: u32)
    requires Inv(reg, n) && i < |n.sent| && n.sent[i].contents.setType == Template
    ensures BuiltAt(reg, n.exporter.domain, n.sent, i) && |n.sent[i].contents.records| == 1
    ensures var id := n.sent[i].contents.records[0].templateId;
            && id in n.exporter.templates && AllAnnounceable(n.exporter.templates[id].elements)
            && var s := RefreshSet(n.exporter, id);
            && AllPrintable(s.setType, s.records) && Admissible(reg, n, Send(s, time))
            && SendSet(n.exporter, s, time).0 == n.exporter
            && PrintRecords(Template, s.records) == PrintRecords(Template, n.sent[i].contents.records)
  {
    hide Announced, Learn, Knows, Expected, InFlight, MinLength, BytesOf, WasBuilt, AllRegistered, AllAnnounceable,
      EmptyElements, PrintRecords;
    var c := n.sent[i].contents;
    assert BuiltAt(reg, n.exporter.domain, n.sent, i);
    FairTemplate(reg, n.exporter.domain, n.sent, i);
    var r := c.records[0];
    AnnouncedStays(reg, n.exporter.domain, n.sent, i, |n.sent|);
    assert n.sent[..|n.sent|] == n.sent;
    assert r.templateId in Sendable(Definitions(n.exporter));
    RefreshAdmitted(reg, n, i, time);
  }

  /** Nothing sent later changes what a template set announced. */
  lemma {:induction false} AnnouncedStays(reg: Index, domain: u32, sent: seq<Sent>, i: nat, n: nat)
    requires i < n <= |sent| && forall j :: 0 <= j < |sent| ==> BuiltAt(reg, domain, sent, j)
    requires sent[i].contents.setType == Template
    ensures |sent[i].contents.records| == 1
    ensures var r := sent[i].contents.records[0];
            r.templateId in Announced(sent[..n]) && Announced(sent[..n])[r.templateId] == Ies(r.elements)
    decreases n
  {
    hide AllRegistered, AllAnnounceable, AllConform, WasBuilt;
    assert BuiltAt(reg, domain, sent, i) && BuiltAt(reg, domain, sent, n - 1);
    assert sent[..n][..n - 1] == sent[..n - 1] && sent[..n][n - 1] == sent[n - 1];
    if i < n - 1 {
      AnnouncedStays(reg, domain, sent, i, n - 1);
    }
  }

  lemma RefreshAdmitted(reg: Index, n: Session, i: nat, time: u32)
    requires i < |n.sent| && BuiltAt(reg, n.exporter.domain, n.sent, i) && n.sent[i].contents.setType == Template
    requires |n.sent[i].contents.records| == 1
    requires var r := n.sent[i].contents.records[0];
             r.templateId in n.exporter.templates && n.exporter.templates[r.templateId].elements == Ies(r.elements)
    ensures var r := n.sent[i].contents.records[0];
            && AllAnnounceable(n.exporter.templates[r.templateId].elements)
            && var s := RefreshSet(n.exporter, r.templateId);
            && AllPrintable(s.setType, s.records) && Admissible(reg, n, Send(s, time))
            && SendSet(n.exporter, s, time).0 == n.exporter
            && PrintRecords(Template, s.records) == PrintRecords(Template, n.sent[i].contents.records)
  {
    hide AllRegistered, AllAnnounceable, EmptyElements, TemplateBytes;
    var c := n.sent[i].contents;
    var r := c.records[0];
    var s := RefreshSet(n.exporter, r.templateId);
    assert s.records[1..] == [] && c.records[1..] == [];
    assert UpdateTemplates(n.exporter, s.records) == n.exporter;
  }
}
