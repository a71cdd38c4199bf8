/** Lookups and reconciliation results as a whole: they keep the record an earlier view of the
    venue, and a current and complete result makes it the present view. */
module Evidence {
  import opened Models
  import opened StateMachine
  import opened Intervals
  import opened Sorting
  import opened Records
  import opened FillLedger
  import opened Venues
  import opened Coupling
  import Idempotence

  // ---- results ----

  ghost predicate ClientsKnown(children: seq<ChildOrder>, fills: seq<Fill>) {
    forall k :: 0 <= k < |fills| ==> HasId(children, fills[k].client)
  }

  lemma AdvancedHasId(a: seq<ChildOrder>, b: seq<ChildOrder>, id: nat)
    requires ChildrenAdvanced(a, b)
    ensures HasId(a, id) <==> HasId(b, id)
  {
    AdvancedKeepsIds(a, b);
    if HasId(a, id) {
      var i :| 0 <= i < |a| && a[i].id == id;
      assert b[i].id == id;
    }
    if HasId(b, id) {
      var i :| 0 <= i < |b| && b[i].id == id;
      assert a[i].id == id;
    }
  }

  lemma {:induction false} FillsInform(r: Record, v: VenueState, rows: seq<ChildOrder>, fills: seq<Fill>)
    requires Tied(r, v) && ClientsKnown(r.children, fills)
    requires forall k :: 0 <= k < |fills| ==> FillOk(v, fills[k])
    ensures Informed(r, ApplyFills(r, rows, fills), v)
    ensures forall k :: 0 <= k < |fills| ==> fills[k].tradeId.Some? && fills[k].tradeId.value in ApplyFills(r, rows, fills).seen
  {
    hide Tied, ApplyFill, ChildrenAdvanced, HasId, FillOfTrade;
    if fills == [] {
      InformedReflexive(r, v);
    } else {
      var n := |fills| - 1;
      assert ClientsKnown(r.children, fills[..n]);
      FillsInform(r, v, rows, fills[..n]);
      var r1 := ApplyFills(r, rows, fills[..n]);
      AdvancedHasId(r.children, r1.children, fills[n].client);
      FillInforms(r1, v, rows, fills[n]);
      var r2 := ApplyFill(r1, rows, fills[n]);
      InformedTransitive(r, r1, r2, v);
      forall k | 0 <= k < |fills| ensures fills[k].tradeId.Some? && fills[k].tradeId.value in r2.seen {
        assert FillOk(v, fills[k]);
        if k < n { assert fills[..n][k] == fills[k]; }
      }
    }
  }

  lemma {:induction false} RowsInform(r: Record, v: VenueState, rows: seq<ChildOrder>)
    requires Tied(r, v)
    requires forall k :: 0 <= k < |rows| ==> RowOk(v, rows[k])
    ensures Informed(r, ApplyRows(r, rows), v)
  {
    hide Tied, TakeReport, ChildrenAdvanced, ReportOk;
    if rows == [] {
      InformedReflexive(r, v);
    } else {
      var n := |rows| - 1;
      RowsInform(r, v, rows[..n]);
      var r1 := ApplyRows(r, rows[..n]);
      var i := IndexOf(r1.children, rows[n].id);
      assert RowOk(v, rows[n]);
      if i.Some? {
        ReportInforms(r1, v, i.value, rows[n].status, rows[n].confirmed);
      } else {
        InformedReflexive(r1, v);
      }
      InformedTransitive(r, r1, ApplyRow(r1, rows[n]), v);
    }
  }

  lemma TracedRows(children: seq<ChildOrder>, v: VenueState, result: ReconciliationResult)
    requires VenueOk(v) && Traced(children, v) && ResultOk(v, result)
    ensures Idempotence.RowsKnown(children, result.orders)
    ensures ClientsKnown(children, result.fills)
  {
    forall k | 0 <= k < |result.orders| ensures HasId(children, result.orders[k].id) {
      assert RowOk(v, result.orders[k]);
    }
    forall k | 0 <= k < |result.fills| ensures HasId(children, result.fills[k].client) {
      assert FillOk(v, result.fills[k]);
      assert TradeOk(v, result.fills[k].tradeId.value - 1);
    }
  }

  lemma SortedResultFills(v: VenueState, children: seq<ChildOrder>, fills: seq<Fill>)
    requires ClientsKnown(children, fills)
    requires forall k :: 0 <= k < |fills| ==> FillOk(v, fills[k])
    ensures
      var sorted := Sort(fills, FillLe);
      && ClientsKnown(children, sorted)
      && (forall k :: 0 <= k < |sorted| ==> FillOk(v, sorted[k]))
      && (forall x :: x in sorted <==> x in fills)
  {
    hide FillOk, HasId;
    Idempotence.FillOrderIsTotal();
    SortMembers(fills, FillLe);
    var sorted := Sort(fills, FillLe);
    forall k | 0 <= k < |sorted| ensures FillOk(v, sorted[k]) && HasId(children, sorted[k].client) {
      assert sorted[k] in fills;
    }
  }

  /** The rows and fills of a result adopt nothing and keep the record a view of the venue. */
  lemma EvidenceInforms(r: Record, v: VenueState, result: ReconciliationResult)
    requires Tied(r, v) && Traced(r.children, v) && ResultOk(v, result)
    ensures Informed(r, ApplyEvidence(r, result), v)
    ensures AdoptRows(r, result.orders, ClientsOfFills(result.fills)) == r
    ensures forall k :: 0 <= k < |result.fills| ==> result.fills[k].tradeId.Some? && result.fills[k].tradeId.value in ApplyEvidence(r, result).seen
  {
    hide Tied, Traced, ApplyFills, ApplyRows, AdoptRows, ChildrenAdvanced, FillOk, RowOk;
    TracedRows(r.children, v, result) by { assert Tied(r, v) && VenueOk(v) by { TiedVenue(r, v); } }
    Idempotence.AllKnownAdoptsNothing(r, result.orders, ClientsOfFills(result.fills));
    var sorted := Sort(result.fills, FillLe);
    SortedResultFills(v, r.children, result.fills);
    FillsInform(r, v, result.orders, sorted);
    var r1 := ApplyFills(r, result.orders, sorted);
    RowsInform(r1, v, result.orders);
    InformedTransitive(r, r1, ApplyRows(r1, result.orders), v);
    forall k | 0 <= k < |result.fills| ensures result.fills[k].tradeId.Some? && result.fills[k].tradeId.value in ApplyEvidence(r, result).seen {
      assert result.fills[k] in sorted;
    }
  }

  lemma TiedVenue(r: Record, v: VenueState)
    requires Tied(r, v)
    ensures VenueOk(v)
  {}

  // ---- warnings ----

  ghost predicate MissingAbsent(children: seq<ChildOrder>, listed: set<nat>, v: VenueState) {
    forall i :: 0 <= i < |children| ==> MissingAbsentAt(children, listed, v, i)
  }

  ghost predicate MissingAbsentAt(children: seq<ChildOrder>, listed: set<nat>, v: VenueState, i: int)
    requires 0 <= i < |children|
  {
    children[i].status == Unknown && children[i].id !in listed ==> Absent(v, children[i].id)
  }

  lemma {:induction false} MissingInforms(r: Record, v: VenueState, listed: set<nat>, i: nat)
    requires Tied(r, v) && MissingAbsent(r.children, listed, v)
    ensures Informed(r, RejectMissingFrom(r, listed, i), v)
    decreases |r.children| - i
  {
    hide Tied, ChildrenAdvanced, Absent;
    if i >= |r.children| {
      InformedReflexive(r, v);
    } else if r.children[i].status == Unknown && r.children[i].id !in listed {
      assert MissingAbsentAt(r.children, listed, v, i);
      RejectionInforms(r, v, i);
      var r1 := SetStatus(r, i, Rejected);
      forall j | 0 <= j < |r1.children| ensures MissingAbsentAt(r1.children, listed, v, j) {
        assert MissingAbsentAt(r.children, listed, v, j);
      }
      MissingInforms(r1, v, listed, i + 1);
      InformedTransitive(r, r1, RejectMissingFrom(r1, listed, i + 1), v);
    } else {
      MissingInforms(r, v, listed, i + 1);
    }
  }

  /** Evidence turns no child unknown, so a warning that could be believed still can. */
  lemma WarningStaysOk(r: Record, r': Record, v: VenueState, result: ReconciliationResult)
    requires WarningOk(v, r.children, result) && result.notFound
    requires ChildrenAdvanced(r.children, r'.children)
    requires forall i :: 0 <= i < |r.children| && r'.children[i].status == Unknown ==> r.children[i].status == Unknown
    ensures MissingAbsent(r'.children, ClientsOfOrders(result.orders), v)
  {
    AdvancedKeepsIds(r.children, r'.children);
    forall i | 0 <= i < |r'.children| ensures MissingAbsentAt(r'.children, ClientsOfOrders(result.orders), v, i) {
    }
  }

  /** A status that evidence can leave a child in. */
  ghost predicate NoNewUnknown(a: seq<ChildOrder>, b: seq<ChildOrder>) {
    |a| == |b| && forall i :: 0 <= i < |a| && b[i].status == Unknown ==> a[i].status == Unknown
  }

  lemma ReportNoNewUnknown(r: Record, i: nat, o: Order, status: ChildStatus, filled: nat)
    requires i < |r.children| && ReportOk(o, status, filled)
    ensures NoNewUnknown(r.children, TakeReport(r, i, status, filled).children)
  {
    hide TakeReport;
    Idempotence.ReportShape(r, i, status, filled);
  }

  lemma {:induction false} RowsNoNewUnknown(r: Record, v: VenueState, rows: seq<ChildOrder>)
    requires forall k :: 0 <= k < |rows| ==> RowOk(v, rows[k])
    ensures NoNewUnknown(r.children, ApplyRows(r, rows).children)
  {
    hide TakeReport, ReportOk;
    if rows != [] {
      var n := |rows| - 1;
      RowsNoNewUnknown(r, v, rows[..n]);
      var r1 := ApplyRows(r, rows[..n]);
      var i := IndexOf(r1.children, rows[n].id);
      assert RowOk(v, rows[n]);
      if i.Some? {
        ReportNoNewUnknown(r1, i.value, v.orders[rows[n].id], rows[n].status, rows[n].confirmed);
      }
    }
  }

  lemma {:induction false} FillsKeepStatuses(r: Record, rows: seq<ChildOrder>, fills: seq<Fill>)
    ensures ChildrenGrew(r.children, ApplyFills(r, rows, fills).children)
  {
    hide UpdateFill;
    if fills == [] {
      FillFrameReflexive(r);
    } else {
      var n := |fills| - 1;
      FillsKeepStatuses(r, rows, fills[..n]);
      var r1 := ApplyFills(r, rows, fills[..n]);
      var f := fills[n];
      var i := IndexOf(r1.children, f.client);
      if i.Some? {
        var limit := Max(Max(r1.children[i.value].confirmed, RowConfirmed(rows, f.client)), f.cumulative);
        UpdateFrame(r1, i.value, f.cumulative, Some(DetailsOf(f, limit)));
        GrewTransitive(r.children, r1.children, UpdateFill(r1, i.value, f.cumulative, Some(DetailsOf(f, limit))).children);
      }
    }
  }

  lemma GrewTransitive(a: seq<ChildOrder>, b: seq<ChildOrder>, c: seq<ChildOrder>)
    requires ChildrenGrew(a, b) && ChildrenGrew(b, c)
    ensures ChildrenGrew(a, c)
  {
    forall i: nat | i < |a| ensures GrewAt(a, c, i) {
      assert GrewAt(a, b, i);
      assert GrewAt(b, c, i);
    }
  }

  lemma EvidenceNoNewUnknown(r: Record, v: VenueState, result: ReconciliationResult)
    requires Tied(r, v) && Traced(r.children, v) && ResultOk(v, result)
    ensures NoNewUnknown(r.children, ApplyEvidence(r, result).children)
  {
    hide Tied, Traced, ApplyFills, ApplyRows, AdoptRows, RowOk, FillOk;
    EvidenceInforms(r, v, result);
    var filled := ApplyFills(r, result.orders, Sort(result.fills, FillLe));
    FillsKeepStatuses(r, result.orders, Sort(result.fills, FillLe));
    assert NoNewUnknown(r.children, filled.children) by {
      forall i | 0 <= i < |r.children| && filled.children[i].status == Unknown ensures r.children[i].status == Unknown {
        assert GrewAt(r.children, filled.children, i);
      }
    }
    RowsNoNewUnknown(filled, v, result.orders);
  }

  /** A delivered result, with a warning that may be believed, keeps the record tied. */
  lemma DeliveryInforms(r: Record, v: VenueState, result: ReconciliationResult)
    requires Tied(r, v) && Traced(r.children, v) && ResultOk(v, result) && WarningOk(v, r.children, result)
    ensures Informed(r, ApplyWarning(ApplyEvidence(r, result), result), v)
  {
    hide Tied, Traced, ResultOk, ApplyEvidence, ChildrenAdvanced, MissingAbsent, NoNewUnknown, WarningOk;
    EvidenceInforms(r, v, result);
    var r1 := ApplyEvidence(r, result);
    if result.notFound {
      EvidenceNoNewUnknown(r, v, result);
      WarningStaysOk(r, r1, v, result) by { UnfoldNoNewUnknown(r.children, r1.children); }
      MissingInforms(r1, v, ClientsOfOrders(result.orders), 0);
      InformedTransitive(r, r1, ApplyWarning(r1, result), v);
    }
  }

  lemma UnfoldNoNewUnknown(a: seq<ChildOrder>, b: seq<ChildOrder>)
    requires NoNewUnknown(a, b)
    ensures |a| == |b| && forall i :: 0 <= i < |a| && b[i].status == Unknown ==> a[i].status == Unknown
  {}

  // ---- lookups ----

  ghost predicate AnswersOk(v: VenueState, children: seq<ChildOrder>, answers: seq<Lookup>) {
    |answers| == |children| && forall i: nat :: i < |children| ==> AnswerOkAt(v, children, answers, i)
  }

  ghost predicate AnswerOkAt(v: VenueState, children: seq<ChildOrder>, answers: seq<Lookup>, i: nat)
    requires i < |children| && i < |answers|
  {
    children[i].status.IsTerminal() || AnswerOk(v, children[i], answers[i])
  }

  /** Answers to the children from `i` on still apply after child `i` alone has moved. */
  lemma LaterAnswersStayOk(v: VenueState, a: seq<ChildOrder>, b: seq<ChildOrder>, answers: seq<Lookup>, i: nat)
    requires |answers| == |a| == |b| && i < |a|
    requires forall j: nat :: i <= j < |a| ==> AnswerOkAt(v, a, answers, j)
    requires forall j :: i < j < |a| ==> b[j] == a[j]
    ensures forall j: nat :: i + 1 <= j < |b| ==> AnswerOkAt(v, b, answers, j)
  {
    forall j: nat | i + 1 <= j < |b| ensures AnswerOkAt(v, b, answers, j) {
      assert AnswerOkAt(v, a, answers, j);
    }
  }

  lemma ReportLeavesOthers(r: Record, i: nat, status: ChildStatus, filled: nat)
    requires i < |r.children|
    ensures |TakeReport(r, i, status, filled).children| == |r.children|
    ensures forall j :: 0 <= j < |r.children| && j != i ==> TakeReport(r, i, status, filled).children[j] == r.children[j]
  {
    hide TakeReport;
    Idempotence.ReportShape(r, i, status, filled);
  }

  lemma {:induction false} LookupsInform(r: Record, v: VenueState, answers: seq<Lookup>, i: nat)
    requires Tied(r, v) && |answers| == |r.children|
    requires forall j: nat :: i <= j < |r.children| ==> AnswerOkAt(v, r.children, answers, j)
    ensures Informed(r, LookupFrom(r, answers, i).0, v)
    decreases |r.children| - i
  {
    hide Tied, ChildrenAdvanced, TakeReport, Absent, ReportOk;
    if i >= |r.children| {
      InformedReflexive(r, v);
      return;
    }
    assert AnswerOkAt(v, r.children, answers, i);
    InformedReflexive(r, v);
    if r.children[i].status.IsTerminal() {
      LookupsInform(r, v, answers, i + 1);
    } else {
      match answers[i] {
        case Banned =>
        case Limited =>
        case Raised =>
        case NotFound =>
          var r1 := if r.children[i].status == Unknown then SetStatus(r, i, Rejected) else r;
          if r.children[i].status == Unknown { RejectionInforms(r, v, i); }
          LaterAnswersStayOk(v, r.children, r1.children, answers, i);
          LookupsInform(r1, v, answers, i + 1);
          InformedTransitive(r, r1, LookupFrom(r1, answers, i + 1).0, v);
        case Found(status, filled) =>
          var r1 := TakeReport(r, i, status, filled);
          ReportInforms(r, v, i, status, filled);
          ReportLeavesOthers(r, i, status, filled);
          LaterAnswersStayOk(v, r.children, r1.children, answers, i);
          LookupsInform(r1, v, answers, i + 1);
          InformedTransitive(r, r1, LookupFrom(r1, answers, i + 1).0, v);
      }
    }
  }

  lemma {:induction false} ResolutionInforms(r: Record, v: VenueState, answers: seq<Lookup>, i: nat)
    requires Tied(r, v) && |answers| == |r.children|
    requires forall j: nat :: i <= j < |r.children| ==> AnswerOkAt(v, r.children, answers, j)
    ensures Informed(r, ResolveUnknownFrom(r, answers, i).0, v)
    ensures NoNewUnknown(r.children, ResolveUnknownFrom(r, answers, i).0.children)
    decreases |r.children| - i
  {
    hide Tied, ChildrenAdvanced, TakeReport, Absent, ReportOk;
    if i >= |r.children| {
      InformedReflexive(r, v);
      return;
    }
    assert AnswerOkAt(v, r.children, answers, i);
    InformedReflexive(r, v);
    if r.children[i].status != Unknown {
      ResolutionInforms(r, v, answers, i + 1);
    } else {
      match answers[i] {
        case Banned =>
        case Limited =>
        case Raised =>
        case NotFound =>
          var r1 := SetStatus(r, i, Rejected);
          RejectionInforms(r, v, i);
          LaterAnswersStayOk(v, r.children, r1.children, answers, i);
          ResolutionInforms(r1, v, answers, i + 1);
          InformedTransitive(r, r1, ResolveUnknownFrom(r1, answers, i + 1).0, v);
        case Found(status, filled) =>
          var r1 := TakeReport(r, i, status, filled);
          ReportInforms(r, v, i, status, filled);
          ReportLeavesOthers(r, i, status, filled);
          ReportNoNewUnknown(r, i, v.orders[r.children[i].id], status, filled);
          LaterAnswersStayOk(v, r.children, r1.children, answers, i);
          ResolutionInforms(r1, v, answers, i + 1);
          InformedTransitive(r, r1, ResolveUnknownFrom(r1, answers, i + 1).0, v);
      }
    }
  }
}
