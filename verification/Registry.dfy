/** The registry of information elements: one index by id, one by name, and the reverse elements of section 6.1 of RFC
    5103. */
module Registry {
  import opened Bytes
  import opened Elements
  import opened Parse

  const IANA: u32 := 0
  const ANTREA: u32 := 56506
  const IANA_REVERSED: u32 := 29305

  type NameIndex = map<u32, map<string, InfoElement>>

  datatype Indexes = Indexes(byId: Index, byName: NameIndex)

  const NON_REVERSIBLE := {
    "biflowDirection", "collectorIPv4Address", "collectorIPv6Address", "collectorTransportPort", "commonPropertiesId",
    "exportedMessageTotalCount", "exportedOctetTotalCount", "exportedFlowRecordTotalCount", "exporterIPv4Address",
    "exporterIPv6Address", "exporterTransportPort", "exportInterface", "exportProtocolVersion",
      "exportTransportProtocol",
    "flowId", "flowKeyIndicator", "ignoredPacketTotalCount", "ignoredOctetTotalCount", "notSentFlowTotalCount",
    "notSentPacketTotalCount", "notSentOctetTotalCount", "observationDomainId", "observedFlowTotalCount",
      "paddingOctets",
    "templateId"}

  predicate IsReversible(name: string) {
    name !in NON_REVERSIBLE
  }

  function Upper(c: char): char {
    if 'a' <= c <= 'z' then c - 32 as char else c
  }

  /** The element of the opposite direction: same id, type and length, under a name and an enterprise of its own. */
  function Reverse(ie: InfoElement): InfoElement {
    ie.(name := "reverse" + (if ie.name == "" then "" else [Upper(ie.name[0])] + ie.name[1..]),
      enterpriseId := IANA_REVERSED)
  }

  predicate HasReverse(ie: InfoElement) {
    ie.enterpriseId == IANA && IsReversible(ie.name)
  }

  /** Both indexes get the element, under the element's own enterprise. */
  function Put(r: Indexes, ie: InfoElement): Indexes
    requires ie.enterpriseId in r.byId && ie.enterpriseId in r.byName
  {
    var e := ie.enterpriseId;
    var ids: map<u16, InfoElement> := r.byId[e];
    var names := r.byName[e];
    Indexes(r.byId[e := ids[ie.elementId := ie]], r.byName[e := names[ie.name := ie]])
  }

  /** `registerInfoElement`. Writing to an enterprise that has no index panics. */
  function Register(r: Indexes, ie: InfoElement, e: u32): Outcome<Indexes> {
    if e !in r.byName || ie.name in r.byName[e] then Error
    else if ie.enterpriseId !in r.byId || ie.enterpriseId !in r.byName then Panic
    else if !HasReverse(ie) then Ok(Put(r, ie))
    else if IANA_REVERSED !in r.byId || IANA_REVERSED !in r.byName then Panic
    else Ok(Put(Put(r, ie), Reverse(ie)))
  }

  function LookupName(r: Indexes, e: u32, name: string): Outcome<InfoElement> {
    if e !in r.byName || name !in r.byName[e] then Error else Ok(r.byName[e][name])
  }

  // ---------- the two indexes agree ----------

  /** Names are filed under themselves, and both indexes know the same enterprises. */
  ghost predicate WellFormed(r: Indexes) {
    && r.byId.Keys == r.byName.Keys
    && forall e, n :: LookupName(r, e, n).Ok? ==>
         LookupName(r, e, n).value.name == n && LookupName(r, e, n).value.enterpriseId == e
  }

  /** Whatever is found by name in an enterprise is found by its id too. */
  ghost predicate ConsistentIn(r: Indexes, e: u32) {
    forall n :: LookupName(r, e, n).Ok? ==>
      Lookup(r.byId, e, LookupName(r, e, n).value.elementId) == LookupName(r, e, n)
  }

  ghost predicate Consistent(r: Indexes) {
    forall e :: ConsistentIn(r, e)
  }

  /** No element of another name has the id of `ie`. */
  ghost predicate IdFree(r: Indexes, ie: InfoElement) {
    forall n :: n != ie.name && LookupName(r, ie.enterpriseId, n).Ok? ==>
      LookupName(r, ie.enterpriseId, n).value.elementId != ie.elementId
  }

  lemma PutLookups(r: Indexes, ie: InfoElement)
    requires ie.enterpriseId in r.byId && ie.enterpriseId in r.byName
    ensures forall e, n :: LookupName(Put(r, ie), e, n) ==
              if e == ie.enterpriseId && n == ie.name then Ok(ie) else LookupName(r, e, n)
    ensures forall e, id :: Lookup(Put(r, ie).byId, e, id) ==
              if e == ie.enterpriseId && id == ie.elementId then Ok(ie) else Lookup(r.byId, e, id)
    ensures Put(r, ie).byId.Keys == r.byId.Keys && Put(r, ie).byName.Keys == r.byName.Keys
  {
  }

  lemma PutWellFormed(r: Indexes, ie: InfoElement)
    requires WellFormed(r) && ie.enterpriseId in r.byName
    ensures WellFormed(Put(r, ie)) && LookupName(Put(r, ie), ie.enterpriseId, ie.name) == Ok(ie)
  {
    hide Put, Lookup, LookupName;
    PutLookups(r, ie);
  }

  lemma PutConsistent(r: Indexes, ie: InfoElement, e: u32)
    requires WellFormed(r) && ConsistentIn(r, ie.enterpriseId) && ie.enterpriseId in r.byName
    ensures ConsistentIn(Put(r, ie), e) <==> if e == ie.enterpriseId then IdFree(r, ie) else ConsistentIn(r, e)
  {
    hide Put, Lookup, LookupName;
    PutLookups(r, ie);
    var s := Put(r, ie);
    forall n ensures e != ie.enterpriseId || n != ie.name ==> LookupName(s, e, n) == LookupName(r, e, n) {
    }
    if !IdFree(r, ie) {
      var n :| n != ie.name && LookupName(r, ie.enterpriseId, n).Ok?
        && LookupName(r, ie.enterpriseId, n).value.elementId == ie.elementId;
      assert LookupName(s, ie.enterpriseId, n) == LookupName(r, ie.enterpriseId, n);
    }
  }

  /** What is filed under another enterprise is not touched. */
  lemma PutElsewhere(r: Indexes, ie: InfoElement, other: InfoElement)
    requires ie.enterpriseId in r.byId && ie.enterpriseId in r.byName && other.enterpriseId != ie.enterpriseId
    ensures IdFree(Put(r, ie), other) <==> IdFree(r, other)
    ensures LookupName(Put(r, ie), other.enterpriseId, other.name) == LookupName(r, other.enterpriseId, other.name)
  {
    hide Put, Lookup, LookupName;
    PutLookups(r, ie);
    forall n ensures LookupName(Put(r, ie), other.enterpriseId, n) == LookupName(r, other.enterpriseId, n) {
    }
  }

  /** Registering under the element's own enterprise keeps the two indexes in agreement exactly if no element of
      another name has the id already, here and, for an element that has a reverse, among the reverse elements. */
  lemma RegisterConsistent(r: Indexes, ie: InfoElement)
    requires WellFormed(r) && Consistent(r)
    ensures var s := Register(r, ie, ie.enterpriseId);
            s.Ok? ==>
              && WellFormed(s.value) && LookupName(s.value, ie.enterpriseId, ie.name) == Ok(ie)
              && (Consistent(s.value) <==> IdFree(r, ie) && (HasReverse(ie) ==> IdFree(r, Reverse(ie))))
  {
    hide Put, Lookup, LookupName, ConsistentIn, IdFree, IsReversible;
    if Register(r, ie, ie.enterpriseId).Ok? {
      var s := Put(r, ie);
      PutLookups(r, ie);
      PutWellFormed(r, ie);
      forall e ensures ConsistentIn(s, e) <==> if e == ie.enterpriseId then IdFree(r, ie) else true {
        PutConsistent(r, ie, e);
      }
      if HasReverse(ie) {
        var back := Reverse(ie);
        PutWellFormed(s, back);
        PutElsewhere(r, ie, back);
        PutElsewhere(s, back, ie);
        forall e ensures ConsistentIn(Put(s, back), e) <==>
          if e == IANA_REVERSED then IdFree(r, back) else ConsistentIn(s, e) {
          PutConsistent(s, back, e);
        }
        assert Consistent(Put(s, back)) ==>
            ConsistentIn(Put(s, back), IANA) && ConsistentIn(Put(s, back), IANA_REVERSED);
      } else {
        assert Consistent(s) ==> ConsistentIn(s, ie.enterpriseId);
      }
    }
  }

  // ---------- every table of elements ----------

  /** `LoadRegistry` before any element: three enterprises without elements. */
  const EMPTY := Indexes(
    map[ANTREA := map[], IANA := map[], IANA_REVERSED := map[]],
      map[ANTREA := map[], IANA := map[], IANA_REVERSED := map[]])

  /** Elements registered one after the other; one that is refused is passed over. */
  function LoadAll(ies: seq<InfoElement>): Indexes {
    if ies == [] then EMPTY
    else
      var r, ie := LoadAll(ies[..|ies| - 1]), ies[|ies| - 1];
      var s := Register(r, ie, ie.enterpriseId);
      if s.Ok? then s.value else r
  }

  /** No id is given to two elements of one enterprise, and reverse elements are left to the registry. */
  predicate Clean(ies: seq<InfoElement>) {
    && (forall i :: 0 <= i < |ies| ==> ies[i].enterpriseId != IANA_REVERSED)
    && forall i, j :: 0 <= i < j < |ies| && ies[i].enterpriseId == ies[j].enterpriseId ==>
       ies[i].elementId != ies[j].elementId
  }

  /** The element is one of those registered, or the reverse of one. */
  ghost predicate From(ies: seq<InfoElement>, x: InfoElement) {
    exists i :: 0 <= i < |ies| && (x == ies[i] || (HasReverse(ies[i]) && x == Reverse(ies[i])))
  }

  ghost predicate AllFrom(ies: seq<InfoElement>, r: Indexes) {
    forall e, n :: LookupName(r, e, n).Ok? ==> From(ies, LookupName(r, e, n).value)
  }

  /** Every reversible element has its reverse under the same id. */
  ghost predicate Reversed(r: Indexes) {
    forall n :: LookupName(r, IANA, n).Ok? && IsReversible(n) ==>
      Lookup(r.byId, IANA_REVERSED, LookupName(r, IANA, n).value.elementId) == Ok(Reverse(LookupName(r, IANA, n).value))
  }

  lemma EmptyIsSound()
    ensures WellFormed(EMPTY) && Consistent(EMPTY) && AllFrom([], EMPTY) && Reversed(EMPTY)
  {
    assert forall e, n :: LookupName(EMPTY, e, n).Error?;
  }

  /** An id that no earlier element has is free, and so is the id of its reverse. */
  lemma NextIsFree(ies: seq<InfoElement>, r: Indexes, ie: InfoElement)
    requires Clean(ies + [ie]) && WellFormed(r) && AllFrom(ies, r)
    ensures IdFree(r, ie) && (HasReverse(ie) ==> IdFree(r, Reverse(ie)))
  {
    hide LookupName, IsReversible;
    assert (ies + [ie])[|ies|] == ie;
    forall e, n | LookupName(r, e, n).Ok?
      && e == ie.enterpriseId ensures LookupName(r, e, n).value.elementId != ie.elementId {
      var x := LookupName(r, e, n).value;
      var i :| 0 <= i < |ies| && (x == ies[i] || (HasReverse(ies[i]) && x == Reverse(ies[i])));
      assert (ies + [ie])[i] == ies[i];
    }
    if HasReverse(ie) {
      forall n | LookupName(r, IANA_REVERSED, n).Ok? ensures LookupName(r, IANA_REVERSED,
        n).value.elementId != ie.elementId {
        var x := LookupName(r, IANA_REVERSED, n).value;
        var i :| 0 <= i < |ies| && (x == ies[i] || (HasReverse(ies[i]) && x == Reverse(ies[i])));
        assert (ies + [ie])[i] == ies[i];
      }
    }
  }

  /** After one more element: where everything comes from, and the reverse elements. */
  lemma RegisterTraces(ies: seq<InfoElement>, r: Indexes, ie: InfoElement)
    requires Clean(ies + [ie]) && WellFormed(r) && AllFrom(ies, r) && Reversed(r)
    ensures AllFrom(ies + [ie], r)
    ensures var s := Register(r, ie, ie.enterpriseId);
            s.Ok? ==> AllFrom(ies + [ie], s.value) && Reversed(s.value)
  {
    hide Put, Lookup, LookupName, IdFree, IsReversible;
    var all := ies + [ie];
    forall x | From(ies, x) ensures From(all, x) {
      var i :| 0 <= i < |ies| && (x == ies[i] || (HasReverse(ies[i]) && x == Reverse(ies[i])));
      assert all[i] == ies[i];
    }
    assert all[|ies|] == ie;
    NextIsFree(ies, r, ie);
    if Register(r, ie, ie.enterpriseId).Ok? {
      RegisterLookups(r, ie);
      var s := Register(r, ie, ie.enterpriseId).value;
      assert AllFrom(all, s);
      StaysReversed(r, ie);
    }
  }

  lemma StaysReversed(r: Indexes, ie: InfoElement)
    requires WellFormed(r) && Reversed(r) && IdFree(r, ie) && ie.enterpriseId != IANA_REVERSED
    ensures var s := Register(r, ie, ie.enterpriseId);
            s.Ok? ==> Reversed(s.value)
  {
    hide Put, Lookup, LookupName, IsReversible, Reverse;
    if Register(r, ie, ie.enterpriseId).Ok? {
      RegisterLookups(r, ie);
    }
  }

  lemma RegisterLookups(r: Indexes, ie: InfoElement)
    requires Register(r, ie, ie.enterpriseId).Ok?
    ensures var s := Register(r, ie, ie.enterpriseId).value;
            && (forall e, n :: LookupName(s, e, n) ==
                  if HasReverse(ie) && e == IANA_REVERSED && n == Reverse(ie).name then Ok(Reverse(ie))
                  else if e == ie.enterpriseId && n == ie.name then Ok(ie) else LookupName(r, e, n))
            && (forall e, id :: Lookup(s.byId, e, id) ==
                  if HasReverse(ie) && e == IANA_REVERSED && id == ie.elementId then Ok(Reverse(ie))
                  else if e == ie.enterpriseId && id == ie.elementId then Ok(ie) else Lookup(r.byId, e, id))
            && s.byName.Keys == r.byName.Keys
  {
    hide Put, Lookup, LookupName, IsReversible;
    PutLookups(r, ie);
    if HasReverse(ie) {
      PutLookups(Put(r, ie), Reverse(ie));
    }
  }

  /** Any table of elements with distinct ids: what is found by name is found by id, so that a template built from
      names is recognised from its ids, and every reversible element has its reverse. */
  lemma {:induction false} LoadResolves(ies: seq<InfoElement>)
    requires Clean(ies)
    ensures var r := LoadAll(ies);
            WellFormed(r) && Consistent(r) && AllFrom(ies, r) && Reversed(r)
  {
    hide WellFormed, Consistent, AllFrom, Reversed, IdFree, Register;
    if ies == [] {
      EmptyIsSound();
    } else {
      var front, ie := ies[..|ies| - 1], ies[|ies| - 1];
      assert ies == front + [ie];
      LoadResolves(front);
      NextIsFree(front, LoadAll(front), ie);
      RegisterConsistent(LoadAll(front), ie);
      RegisterTraces(front, LoadAll(front), ie);
    }
  }

  /** The first element of a table that has this enterprise and this name. */
  function FirstNamed(ies: seq<InfoElement>, e: u32, name: string): Outcome<InfoElement> {
    if ies == [] then Error
    else
      var before, last := FirstNamed(ies[..|ies| - 1], e, name), ies[|ies| - 1];
      if before.Ok? then before else if last.enterpriseId == e && last.name == name then Ok(last) else Error
  }

  /** After loading any table a name resolves exactly to the first element of the table that has it. */
  lemma {:induction false} LoadFinds(ies: seq<InfoElement>, e: u32, name: string)
    requires Tabled(ies) && (e == 0 || e == 56506)
    ensures LookupName(LoadAll(ies), e, name) == FirstNamed(ies, e, name)
  {
    hide Put, LookupName, IsReversible, Reverse;
    if ies == [] {
      EmptyIsSound();
      assert LookupName(EMPTY, e, name).Error? by { NothingNamed(e, name); }
    } else {
      var front, ie := ies[..|ies| - 1], ies[|ies| - 1];
      LoadFinds(front, e, name);
      LoadNeverPanics(front);
      RefusedIfNamed(LoadAll(front), ie);
      LoadFinds(front, ie.enterpriseId, ie.name);
      if Register(LoadAll(front), ie, ie.enterpriseId).Ok? {
        RegisterLookups(LoadAll(front), ie);
      }
    }
  }

  lemma NothingNamed(e: u32, name: string)
    ensures LookupName(EMPTY, e, name).Error?
  {
  }

  /** Among the three enterprises only a name that is taken is refused. */
  lemma RefusedIfNamed(r: Indexes, ie: InfoElement)
    requires r.byId.Keys == r.byName.Keys == {ANTREA, IANA, IANA_REVERSED}
    requires ie.enterpriseId == IANA || ie.enterpriseId == ANTREA
    ensures Register(r, ie, ie.enterpriseId).Ok? <==> LookupName(r, ie.enterpriseId, ie.name).Error?
    ensures LookupName(r, ie.enterpriseId, ie.name).Ok? || LookupName(r, ie.enterpriseId, ie.name).Error?
  {
    hide Put, IsReversible, Reverse;
  }

  /** Entry `i` is the only one of its name in the table of enterprise 0, and the only one whose reverse has the name of
      its reverse. */
  predicate AloneReversed(ies: seq<InfoElement>, i: nat)
    requires i < |ies|
  {
    forall j :: 0 <= j < |ies| && j != i && ies[j].enterpriseId == 0 ==>
      ies[j].name != ies[i].name && Reverse(ies[j]).name != Reverse(ies[i]).name
  }

  lemma {:induction false} LoadFindsReverse(ies: seq<InfoElement>, i: nat)
    requires Tabled(ies) && i < |ies| && HasReverse(ies[i]) && AloneReversed(ies, i)
    ensures LookupName(LoadAll(ies), 29305, Reverse(ies[i]).name) == Ok(Reverse(ies[i]))
    decreases |ies|
  {
    hide LoadAll, LookupName, IsReversible, Reverse;
    var n := |ies| - 1;
    var front := ies[..n];
    if i < n {
      assert forall j :: 0 <= j < n ==> front[j] == ies[j];
      LoadFindsReverse(front, i);
      ReverseStays(ies, i);
    } else {
      LastIsReversed(ies);
    }
  }

  lemma ReverseStays(ies: seq<InfoElement>, i: nat)
    requires Tabled(ies) && i < |ies| - 1 && AloneReversed(ies, i)
    requires LookupName(LoadAll(ies[..|ies| - 1]), 29305, Reverse(ies[i]).name) == Ok(Reverse(ies[i]))
    ensures LookupName(LoadAll(ies), 29305, Reverse(ies[i]).name) == Ok(Reverse(ies[i]))
  {
    hide Put, LookupName, IsReversible, Reverse;
    var front, ie := ies[..|ies| - 1], ies[|ies| - 1];
    LoadNeverPanics(front);
    if Register(LoadAll(front), ie, ie.enterpriseId).Ok? {
      RegisterLookups(LoadAll(front), ie);
    }
  }

  lemma LastIsReversed(ies: seq<InfoElement>)
    requires Tabled(ies) && ies != []
    requires HasReverse(ies[|ies| - 1]) && AloneReversed(ies, |ies| - 1)
    ensures var ie := ies[|ies| - 1];
            LookupName(LoadAll(ies), 29305, Reverse(ie).name) == Ok(Reverse(ie))
  {
    hide Put, LookupName, IsReversible, Reverse;
    var front, ie := ies[..|ies| - 1], ies[|ies| - 1];
    LoadNeverPanics(front);
    RefusedIfNamed(LoadAll(front), ie);
    LoadFinds(front, 0, ie.name);
    NotNamedBefore(front, ie.name);
    RegisterLookups(LoadAll(front), ie);
  }

  lemma {:induction false} NotNamedBefore(ies: seq<InfoElement>, name: string)
    requires forall j :: 0 <= j < |ies| && ies[j].enterpriseId == 0 ==> ies[j].name != name
    ensures FirstNamed(ies, 0, name) == Error
  {
    if ies != [] {
      NotNamedBefore(ies[..|ies| - 1], name);
    }
  }

  /** The reverse of an element has its id, type and length, the enterprise 29305, and its name after "reverse" with the
      first letter raised. */
  lemma ReverseNamed(ie: InfoElement)
    requires ie.name != "" && 'a' <= ie.name[0] <= 'z'
    ensures var back := Reverse(ie);
            && back.elementId == ie.elementId && back.dataType == ie.dataType && back.len == ie.len
            && back.enterpriseId == 29305 && |back.name| == 7 + |ie.name| && back.name[..7] == "reverse"
            && back.name[7] as int == ie.name[0] as int - 32 && back.name[8..] == ie.name[1..]
  {
  }

  /** For example: once the octet total is loaded, its reverse is found under its name. */
  lemma OctetsReversed(ies: seq<InfoElement>, i: nat)
    requires Tabled(ies) && i < |ies| && AloneReversed(ies, i)
    requires ies[i].name == "octetTotalCount" && ies[i].enterpriseId == 0
    ensures LookupName(LoadAll(ies), 29305, "reverseOctetTotalCount") ==
            Ok(InfoElement("reverseOctetTotalCount", ies[i].elementId, ies[i].dataType, 29305, ies[i].len))
  {
    hide LoadAll, LookupName, AloneReversed, IsReversible, Reverse;
    OctetsReversible();
    OctetsReverse(ies[i]);
    LoadFindsReverse(ies, i);
  }

  lemma OctetsReverse(ie: InfoElement)
    requires ie.name == "octetTotalCount"
    ensures Reverse(ie) == ie.(name := "reverseOctetTotalCount", enterpriseId := 29305)
  {
    var back := Reverse(ie).name;
    assert |back| == |"reverseOctetTotalCount"|;
    assert forall k :: 0 <= k < |back| ==> back[k] == "reverseOctetTotalCount"[k];
  }

  lemma OctetsReversible()
    ensures IsReversible("octetTotalCount") && !IsReversible("templateId") && !IsReversible("flowId")
  {
  }

  /** Elements looked up by name make templates that the collector recognises. */
  lemma NamesAreRegistered(ies: seq<InfoElement>, e: u32, name: string)
    requires Clean(ies) && LookupName(LoadAll(ies), e, name).Ok?
             && LookupName(LoadAll(ies), e, name).value.elementId < 0x8000
    ensures Registered(LoadAll(ies).byId, LookupName(LoadAll(ies), e, name).value)
  {
    hide LoadAll, LookupName, Lookup;
    LoadResolves(ies);
    assert ConsistentIn(LoadAll(ies), e);
  }

  // ---------- the registry ----------

  /** The two enterprises that the tables of `LoadRegistry` fill. */
  predicate Tabled(ies: seq<InfoElement>) {
    forall i :: 0 <= i < |ies| ==> ies[i].enterpriseId == IANA || ies[i].enterpriseId == ANTREA
  }

  lemma {:induction false} LoadNeverPanics(ies: seq<InfoElement>)
    ensures LoadAll(ies).byId.Keys == LoadAll(ies).byName.Keys == {ANTREA, IANA, IANA_REVERSED}
  {
    hide Put, HasReverse;
    if ies != [] {
      var r, ie := LoadAll(ies[..|ies| - 1]), ies[|ies| - 1];
      LoadNeverPanics(ies[..|ies| - 1]);
      if Register(r, ie, ie.enterpriseId).Ok? {
        PutLookups(r, ie);
        if HasReverse(ie) {
          assert Reverse(ie).enterpriseId == IANA_REVERSED;
          PutLookups(Put(r, ie), Reverse(ie));
        }
      }
    }
  }

  class GlobalRegistry {
    var loaded: bool
    var byId: Index
    var byName: NameIndex

    ghost function Abs(): Indexes
      reads this
    {
      Indexes(byId, byName)
    }

    /** Before `LoadRegistry` both indexes are missing, which reads like empty ones. */
    constructor ()
      ensures !loaded && Abs() == Indexes(map[], map[])
    {
      loaded, byId, byName := false, map[], map[];
    }

    /** `LoadRegistry`, for any tables of elements of its two enterprises; an element that is refused is passed over. */
    method LoadRegistry(table: seq<InfoElement>)
      requires Tabled(table)
      modifies this
      ensures loaded && Abs() == LoadAll(table)
    {
      hide Register;
      loaded, byId, byName := true, EMPTY.byId, EMPTY.byName;
      for i := 0 to |table|
        invariant loaded && Abs() == LoadAll(table[..i])
      {
        assert table[..i + 1][..i] == table[..i];
        LoadNeverPanics(table[..i]);
        KnownNeverPanics(Abs(), table[i]);
        var r := RegisterInfoElement(table[i], table[i].enterpriseId);
      }
      assert table[..|table|] == table;
    }

    static lemma KnownNeverPanics(r: Indexes, ie: InfoElement)
      requires r.byId.Keys == r.byName.Keys == {ANTREA, IANA, IANA_REVERSED}
      requires ie.enterpriseId == IANA || ie.enterpriseId == ANTREA
      ensures var s := Register(r, ie, ie.enterpriseId); s.Ok? || s.Error?
    {
      hide Put, HasReverse;
    }

    /** `InitNewRegistry`: an error before loading; otherwise the enterprise is known and has no element, even if it
        had some, nothing else is lost, and the two indexes agree as they did. */
    method InitNewRegistry(e: u32) returns (err: bool)
      modifies this`byId, this`byName
      ensures err == !loaded
      ensures err ==> Abs() == old(Abs())
      ensures !err ==>
                && e in byId && e in byName
                && (forall d, n :: LookupName(Abs(), d, n) == if d == e then Error else LookupName(old(Abs()), d, n))
                && (forall d, id :: Lookup(byId, d, id) == if d == e then Error else Lookup(old(byId), d, id))
      ensures old(WellFormed(Abs())) ==> WellFormed(Abs())
      ensures old(Consistent(Abs())) ==> Consistent(Abs())
    {
      err := !loaded;
      if loaded {
        byId, byName := byId[e := map[]], byName[e := map[]];
        assert forall d, n :: LookupName(Abs(), d, n) == if d == e then Error else LookupName(old(Abs()), d, n);
        assert forall d, id :: Lookup(byId, d, id) == if d == e then Error else Lookup(old(byId), d, id);
        assert old(Consistent(Abs())) ==> forall d :: old(ConsistentIn(Abs(), d)) && ConsistentIn(Abs(), d);
      }
    }

    method Store(ie: InfoElement)
      requires ie.enterpriseId in byId && ie.enterpriseId in byName
      modifies this`byId, this`byName
      ensures Abs() == Put(old(Abs()), ie)
    {
      var ids: map<u16, InfoElement> := byId[ie.enterpriseId];
      var names := byName[ie.enterpriseId];
      byId := byId[ie.enterpriseId := ids[ie.elementId := ie]];
      byName := byName[ie.enterpriseId := names[ie.name := ie]];
    }

    /** `getIANAReverseInfoElement`. */
    method GetIANAReverseInfoElement(name: string) returns (r: Outcome<InfoElement>)
      ensures var ie := LookupName(Abs(), IANA, name);
              r == if ie.Ok? && IsReversible(ie.value.name) then Ok(Reverse(ie.value)) else Error
    {
      if IANA !in byName || name !in byName[IANA] || !IsReversible(byName[IANA][name].name) {
        return Error;
      }
      r := Ok(Reverse(byName[IANA][name]));
    }

    /** `registerInfoElement`. */
    method RegisterInfoElement(ie: InfoElement, e: u32) returns (r: Outcome<()>)
      modifies this`byId, this`byName
      ensures var s := Register(old(Abs()), ie, e);
              if s.Ok? then r.Ok? && Abs() == s.value
              else r == s.PropagateFailure() && (s.Error? ==> Abs() == old(Abs()))
    {
      hide Put, IsReversible;
      if e !in byName || ie.name in byName[e] {
        return Error;
      }
      if ie.enterpriseId !in byId || ie.enterpriseId !in byName {
        return Panic;
      }
      PutLookups(Abs(), ie);
      Store(ie);
      if ie.enterpriseId == IANA {
        var back := GetIANAReverseInfoElement(ie.name);
        if back.Ok? {
          if IANA_REVERSED !in byId || IANA_REVERSED !in byName {
            return Panic;
          }
          Store(back.value);
        }
      }
      r := Ok(());
    }
  }
}
