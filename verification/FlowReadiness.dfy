/** When a flow becomes ready to send, over every history. */
module FlowReadiness {
  import opened FlowContent
  import opened FlowEffects
  import opened FlowMerge
  import opened FlowOpen
  import opened FlowHistory
  import opened FlowAttempts

  ghost predicate SamePods(a: Record, b: Record) {
    Find(a, PodName(Source)) == Find(b, PodName(Source))
      && Find(a, PodName(Destination)) == Find(b, PodName(Destination))
  }

  /** Opening, merging and resetting leave the pod names alone; only correlation may write them. */
  lemma PodsUntouched(r: Rules, a: Record, rec: Record)
    requires Aligned(r.e) && Usable(r.e)
    ensures Incoming(r.e, rec) ==> SamePods(rec, Opened(r.e, rec))
    ensures Stored(r.e, a) ==> SamePods(a, Reset(r.e, a))
    ensures Stored(r.e, a) ==> SamePods(a, Aggregate(r.e, rec, a, Fills(rec, Source), Fills(rec, Destination)))
  {
    hide NameOf, Find, Assigns, Usable, Incoming, Stored, Opened, Opens, Reset, Aggregate, Fills, StatsReset,
      StatChanged, RatesOpened, Later, EndsMoved, ReasonMerged;
    var roles := RolesOf(r.e);
    KnownRoles(r.e, roles);
    if Incoming(r.e, rec) {
      OpenedEffect(r.e, roles, rec);
    }
    if Stored(r.e, a) {
      ResetEffect(r.e, roles, a);
      AggregateEffect(r.e, roles, rec, a, Fills(rec, Source), Fills(rec, Destination));
    }
  }

  /** Record `k` required correlation and did not come from the node that opened the flow. */
  ghost predicate Completes(h: seq<FlowEvent>, k: nat)
    requires 0 < k < |h| && h[0].Received?
  {
    h[k].Received? && CorrelationRequired(h[k].rec) && !FromSameNode(h[k].rec, h[0].rec)
  }

  ghost predicate Complete(h: seq<FlowEvent>)
    requires h != [] && h[0].Received?
  {
    !CorrelationRequired(h[0].rec) || exists k :: 0 < k < |h| && Completes(h, k)
  }

  lemma CompleteExtends(h: seq<FlowEvent>, n: nat)
    requires 0 < n == |h| - 1 && h[0].Received?
    ensures Complete(h) <==> Complete(h[..n]) || Completes(h, n)
  {
    hide CorrelationRequired, FromSameNode;
    var p := h[..n];
    assert forall k :: 0 < k < n ==> Completes(p, k) == Completes(h, k);
    if Complete(h) && CorrelationRequired(h[0].rec) {
      var k :| 0 < k < |h| && Completes(h, k);
      assert k < n ==> Completes(p, k);
    }
  }

  lemma SamePodsSameNode(a: Record, b: Record, rec: Record)
    requires SamePods(a, b)
    ensures FromSameNode(rec, a) == FromSameNode(rec, b)
  {
    hide NameOf, Find;
  }

  /** A flow is ready exactly when its opening record needed no correlation or some later one came from the
      other side; until then the stored pod names are those of the opening record. */
  lemma {:induction false} ReadyMeansComplete(r: Rules, v4: bool, h: seq<FlowEvent>)
    requires Proper(r, h)
    ensures var f := Replay(r, v4, h);
            && (f.ready <==> Complete(h))
            && (!f.ready ==> SamePods(h[0].rec, f.record))
  {
    hide NameOf, Find, Usable, Incoming, Stored, Opened, Aggregate, Reset, Fills, CorrelationRequired, FromSameNode,
      Complete, Harmless;
    var n := |h| - 1;
    if n == 0 {
      PodsUntouched(r, h[0].rec, h[0].rec);
      Alone(h);
    } else {
      var p, ev := h[..n], h[n];
      ProperPrefix(r, h, n);
      ReadyMeansComplete(r, v4, p);
      AlwaysStored(r, v4, p);
      CompleteExtends(h, n);
      var f := Replay(r, v4, p);
      match ev
      case Received(rec) =>
        PodsUntouched(r, f.record, rec);
        if !f.ready {
          SamePodsSameNode(h[0].rec, f.record, rec);
        }
      case Cleared =>
        PodsUntouched(r, f.record, h[0].rec);
      case Annotated(contents) =>
        if Harmless(r.e, f.record, contents) {
          AnnotationKeeps(r, f.record, contents);
        }
      case Retried =>
      case CalledBack(_) =>
    }
  }

  lemma Alone(h: seq<FlowEvent>)
    requires |h| == 1 && h[0].Received?
    ensures Complete(h) <==> !CorrelationRequired(h[0].rec)
  {
  }

  ghost predicate Reporting(h: seq<FlowEvent>, node: Node) {
    exists k :: 0 <= k < |h| && h[k].Received? && FromNode(h[k].rec, node)
  }

  /** A record names one pod, so it comes from one node. */
  lemma FromOneNode(rec: Record)
    ensures !(FromNode(rec, Source) && FromNode(rec, Destination))
  {
    hide NameOf, Find, GetText;
  }

  /** Records that need correlation and name exactly one pod. */
  ghost predicate OnePodEach(h: seq<FlowEvent>) {
    forall k :: 0 <= k < |h| && h[k].Received? ==>
      CorrelationRequired(h[k].rec) && (FromNode(h[k].rec, Source) || FromNode(h[k].rec, Destination))
  }

  lemma CompleteMeansBothNodes(h: seq<FlowEvent>)
    requires h != [] && h[0].Received? && OnePodEach(h)
    ensures Complete(h) <==> Reporting(h, Source) && Reporting(h, Destination)
  {
    hide FromNode, CorrelationRequired;
    FromOneNode(h[0].rec);
    if Complete(h) {
      var k :| 0 < k < |h| && Completes(h, k);
      assert FromNode(h[k].rec, Source) || FromNode(h[k].rec, Destination);
      FromOneNode(h[k].rec);
    }
    if Reporting(h, Source) && Reporting(h, Destination) {
      var i :| 0 <= i < |h| && h[i].Received? && FromNode(h[i].rec, Source);
      var j :| 0 <= j < |h| && h[j].Received? && FromNode(h[j].rec, Destination);
      FromOneNode(h[i].rec);
      FromOneNode(h[j].rec);
      assert Completes(h, if FromNode(h[0].rec, Source) then j else i);
    }
  }

  /** When every record needs correlation and names exactly one pod, a flow is ready exactly when both nodes have
      reported. */
  lemma ReadyMeansBothNodes(r: Rules, v4: bool, h: seq<FlowEvent>)
    requires Proper(r, h) && OnePodEach(h)
    ensures Replay(r, v4, h).ready <==> Reporting(h, Source) && Reporting(h, Destination)
  {
    hide Usable, Incoming, Replay, Complete, Reporting, OnePodEach;
    ReadyMeansComplete(r, v4, h);
    CompleteMeansBothNodes(h);
  }

  /** Once ready, a flow stays ready through every continuation of its history, rewritten records included. */
  lemma {:induction false} ReadyStays(r: Rules, v4: bool, h: seq<FlowEvent>, n: nat)
    requires Aligned(r.e) && h != [] && h[0].Received? && 0 < n <= |h| && Replay(r, v4, h[..n]).ready
    ensures Replay(r, v4, h).ready
    decreases |h|
  {
    hide Apply, Open;
    if n == |h| {
      assert h[..n] == h;
    } else {
      var p := h[..|h| - 1];
      assert p[..n] == h[..n];
      ReadyStays(r, v4, p, n);
      ApplyKeepsReady(r, Replay(r, v4, p), h[|h| - 1]);
    }
  }

  lemma ApplyKeepsReady(r: Rules, f: Flow, ev: FlowEvent)
    requires Aligned(r.e) && f.ready
    ensures Apply(r, f, ev).ready
  {
    hide Aggregate, Correlating, Correlate, Reset, Fills, TryAggregate, TryCorrelate, TryReset, Harmless;
  }

  // ---------- either order of arrival ----------

  /** The correlate fields after the records of both nodes, for fields that the aggregation leaves alone. */
  lemma SecondRecord(r: Rules, v4: bool, roles: Roles, a: Record, b: Record)
    requires Aligned(r.e) && Usable(r.e) && Assigns(roles, r.e) && Incoming(r.e, a) && Incoming(r.e, b)
    requires forall f :: f in r.fields ==> Foreign(RoleOf(roles, f))
    requires CorrelationRequired(a) && CorrelationRequired(b) && !FromSameNode(b, a)
    ensures var g := Replay(r, v4, [Received(a), Received(b)]);
            g.ready && forall f :: f in r.fields ==> Find(g.record, f) == Find(Correlate(r.fields, b, a, 0), f)
  {
    hide NameOf, Find, Assigns, Usable, Incoming, Stored, Opened, Opens, Aggregate, Correlate, Fills,
      CorrelationRequired,
      FromSameNode, Foreign, RoleOf, EndsMoved, Later, StatChanged, ReasonMerged, StateMerged, Correlates;
    var h := [Received(a), Received(b)];
    assert h[..1] == [Received(a)] && h[1] == Received(b);
    var f := Open(r, a, v4);
    assert Replay(r, v4, h) == Merge(r, f, b);
    var _ := RolesOf(r.e);
    OpenedEffect(r.e, roles, a);
    PodsUntouched(r, a, a);
    SamePodsSameNode(a, f.record, b);
    assert Correlating(f, b);
    var base := Correlate(r.fields, b, f.record, 0);
    CorrelateKeeps(r, b, f.record);
    CorrelateEffect(r.fields, b, f.record, 0);
    CorrelateEffect(r.fields, b, a, 0);
    AggregateEffect(r.e, roles, b, base, Fills(b, Source), Fills(b, Destination));
  }

  /** Once the records of both nodes have arrived, the correlate fields of a flow do not depend on which came first:
      each has the value that was set. */
  lemma EitherOrder(r: Rules, v4: bool, roles: Roles, a: Record, b: Record)
    requires Aligned(r.e) && Usable(r.e) && Assigns(roles, r.e) && Incoming(r.e, a) && Incoming(r.e, b)
    requires forall f :: f in r.fields ==> Foreign(RoleOf(roles, f)) && Agree(a, b, f)
    requires CorrelationRequired(a) && CorrelationRequired(b) && !FromSameNode(a, b)
    ensures var x, y := Replay(r, v4, [Received(a), Received(b)]), Replay(r, v4, [Received(b), Received(a)]);
            && x.ready && y.ready
            && forall f :: f in r.fields ==> Find(x.record, f) == Find(y.record, f) && Combines(x.record, a, b, f)
  {
    hide Find, Assigns, Usable, Incoming, Replay, Correlate, CorrelationRequired, FromNode, Foreign, IsSet;
    SecondRecord(r, v4, roles, a, b);
    SecondRecord(r, v4, roles, b, a);
    CorrelationCommutes(r.fields, a, b);
    var x := Replay(r, v4, [Received(a), Received(b)]).record;
    forall f | f in r.fields
      ensures Combines(x, a, b, f)
    {
      assert Combines(Correlate(r.fields, a, b, 0), a, b, f);
    }
  }
}
