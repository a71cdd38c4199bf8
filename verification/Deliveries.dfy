/** Lookups and delivered results keep the invariant, even when a lookup is cut short before the
    buckets are rebuilt. */
module Deliveries {
  import opened Models
  import opened StateMachine
  import opened Intervals
  import opened Sorting
  import opened Records
  import opened FillLedger
  import opened Venues
  import opened Coupling
  import opened Evidence
  import opened Schedule
  import opened Invariant
  import opened Protocol
  import opened Steps
  import Idempotence

  // ---- evidence and the invariant ----

  /** Nothing but evidence happened between two records. */
  ghost predicate Learned(r: Record, r': Record) {
    && ChildrenAdvanced(r.children, r'.children)
    && LifeKept(r, r')
  }

  lemma LearningKeepsInv(cfg: Config, w: World, r': Record)
    requires Inv(cfg, w) && w.rec.call == Idle
    requires Learned(w.rec, r') && Tied(r', w.venue) && BooksOk(r')
    ensures Inv(cfg, w.(rec := r'))
    ensures Moved(w.rec, r') && r'.status == w.rec.status && Steady(w.rec, r')
  {
    hide BooksOk, Tied, Traced, CapOk, SingleOk, LifeOk, ChildrenAdvanced, Sum, CallOk;
    AdvancedKeepsTraced(w.rec.children, r'.children, w.venue);
    AdvancedCommitsNoMore(w.rec.children, r'.children);
    CapShrinks(cfg, Sum(w.rec.children, CommittedOf), Sum(r'.children, CommittedOf), w.now, w.now);
    AdvancedReservesNoMore(w.rec.children, r'.children);
    AdvanceKeepsLife(cfg, w.rec, r', w.now) by { IdleCallOk(cfg, r', w.now); }
  }

  lemma FailMoves(r: Record, r': Record)
    requires Moved(r, r') && r'.status == r.status
    ensures Moved(r, Fail(r'))
    ensures Steady(r, r') ==> Steady(r, Fail(r'))
  {
    hide ChildrenMoved;
  }

  lemma InformedIsLearned(r: Record, a: Record, b: Record, v: VenueState)
    requires Informed(r, a, v)
    requires b == a.(exposure := b.exposure, rateLimitedUntil := b.rateLimitedUntil)
    ensures Learned(r, b) && Tied(b, v)
  {
    hide Tied, ChildrenAdvanced;
    TiedFrame(a, b, v);
  }

  /** Rebuilding the buckets makes them right whatever they were. */
  lemma RebuiltBooks(a: Record, b: Record)
    requires Ledger(a) && Uncredited(a) == 0
    requires b == RefreshReserved(a.(rateLimitedUntil := b.rateLimitedUntil))
    ensures BooksOk(b)
  {
    hide Sum, Booked, OnlyChildren, TradesOnce, InputsMatch, DistinctIds, LedgerLength, Quantity;
  }

  // ---- exact lookups ----

  lemma {:induction false} LookupsKeepLedger(r: Record, answers: seq<Lookup>, i: nat)
    requires Ledger(r) && |answers| == |r.children|
    ensures Ledger(LookupFrom(r, answers, i).0) && Uncredited(LookupFrom(r, answers, i).0) == Uncredited(r)
    decreases |r.children| - i
  {
    hide LedgerWith, TakeReport, Sum;
    if i < |r.children| {
      if r.children[i].status.IsTerminal() {
        LookupsKeepLedger(r, answers, i + 1);
      } else {
        match answers[i] {
          case Banned =>
          case Limited =>
          case Raised =>
          case NotFound =>
            StatusKeepsLedger(r, [], i, Rejected);
            LookupsKeepLedger(if r.children[i].status == Unknown then SetStatus(r, i, Rejected) else r, answers, i + 1);
          case Found(status, filled) =>
            SnapshotKeepsLedger(r, [], i, status, filled);
            LookupsKeepLedger(TakeReport(r, i, status, filled), answers, i + 1);
        }
      }
    }
  }

  /** A lookup loop moves no bucket but the confirmed one, and when it is cut short it has not
      touched the last child. */
  lemma {:induction false} LookupShape(r: Record, answers: seq<Lookup>, i: nat)
    requires |answers| == |r.children|
    ensures
      var (r', halt) := LookupFrom(r, answers, i);
      && |r'.children| == |r.children|
      && r'.exposure == r.exposure.(confirmed := r'.exposure.confirmed)
      && (forall j :: 0 <= j < |r.children| && j < i ==> r'.children[j] == r.children[j])
      && (halt != Ran && r.children != [] ==> r'.children[|r.children| - 1] == r.children[|r.children| - 1])
    decreases |r.children| - i
  {
    hide TakeReport;
    if i < |r.children| {
      if r.children[i].status.IsTerminal() {
        LookupShape(r, answers, i + 1);
      } else {
        match answers[i] {
          case Banned =>
          case Limited =>
          case Raised =>
          case NotFound =>
            LookupShape(if r.children[i].status == Unknown then SetStatus(r, i, Rejected) else r, answers, i + 1);
          case Found(status, filled) =>
            Idempotence.ReportShape(r, i, status, filled);
            LookupShape(TakeReport(r, i, status, filled), answers, i + 1);
        }
      }
    }
  }

  /** The buckets need no rebuild while the last child, the only one that reserves, is as it was. */
  lemma UntouchedLastKeepsBooks(cfg: Config, w: World, r': Record)
    requires Inv(cfg, w) && ChildrenAdvanced(w.rec.children, r'.children)
    requires Ledger(r') && Uncredited(r') == 0
    requires r'.exposure == w.rec.exposure.(confirmed := r'.exposure.confirmed)
    requires r'.children != [] ==> r'.children[|r'.children| - 1] == w.rec.children[|w.rec.children| - 1]
    ensures BooksOk(r')
  {
    hide Ledger, Tied, Traced, CapOk, SingleOk, LifeOk, ChildrenAdvanced, Sum;
    var a, b := w.rec.children, r'.children;
    AdvancedKeepsIds(a, b);
    if a == [] {
      assert b == [];
    } else {
      AdvancedReservesNoMore(a, b);
      BucketsOnlyLast(a, b, r'.exposure.confirmed);
    }
    BucketsIgnoreConfirmed(a, w.rec.exposure.confirmed, r'.exposure.confirmed);
  }

  lemma RefreshKeepsInv(cfg: Config, w: World, w': World, answers: seq<Lookup>)
    requires Inv(cfg, w) && Step(cfg, w, Refreshes(answers), w')
    ensures Inv(cfg, w')
    ensures Moved(w.rec, w'.rec) && Steady(w.rec, w'.rec)
  {
    hide Inv, ChildrenAdvanced, LookupFrom, Ledger, Uncredited, Tied, Recomputed, LifeKept;
    InvVenue(cfg, w);
    InvBuckets(cfg, w);
    BooksLedger(w.rec);
    BooksCredited(w.rec);
    LookupsInform(w.rec, w.venue, answers, 0) by { AllAnswersOk(w.venue, w.rec.children, answers); }
    LookupsKeepLedger(w.rec, answers, 0);
    LookupShape(w.rec, answers, 0);
    var (r1, halt) := LookupFrom(w.rec, answers, 0);
    match halt {
      case Ran =>
        RefreshedKeepsInv(cfg, w, r1, RefreshReserved(r1));
      case HaltLimited =>
        RefreshedKeepsInv(cfg, w, r1, RefreshReserved(BackOff(r1, w.now)));
      case HaltBanned =>
        CutKeepsInv(cfg, w, r1);
        FailKeepsInv(cfg, w.(rec := r1));
        FailMoves(w.rec, r1);
      case HaltRaised =>
        CutKeepsInv(cfg, w, r1);
    }
  }

  lemma AllAnswersOk(v: VenueState, children: seq<ChildOrder>, answers: seq<Lookup>)
    requires AnswersOk(v, children, answers)
    ensures forall j: nat :: 0 <= j < |children| ==> AnswerOkAt(v, children, answers, j)
  {}

  lemma BooksCredited(r: Record)
    requires BooksOk(r)
    ensures Uncredited(r) == 0
  {}

  lemma RefreshedKeepsInv(cfg: Config, w: World, a: Record, b: Record)
    requires Inv(cfg, w) && w.rec.call == Idle && Informed(w.rec, a, w.venue)
    requires Ledger(a) && Uncredited(a) == 0
    requires b == RefreshReserved(a.(rateLimitedUntil := b.rateLimitedUntil))
    ensures Inv(cfg, w.(rec := b))
    ensures Moved(w.rec, b) && b.status == w.rec.status && Steady(w.rec, b)
  {
    hide Inv, Ledger, Uncredited, Informed, BooksOk, Learned, Recomputed, Tied;
    RebuiltBooks(a, b);
    InformedIsLearned(w.rec, a, b, w.venue);
    LearningKeepsInv(cfg, w, b);
  }

  lemma CutKeepsInv(cfg: Config, w: World, a: Record)
    requires Inv(cfg, w) && w.rec.call == Idle && Informed(w.rec, a, w.venue)
    requires Ledger(a) && Uncredited(a) == 0
    requires a.exposure == w.rec.exposure.(confirmed := a.exposure.confirmed)
    requires w.rec.children != [] && |a.children| == |w.rec.children| ==>
               a.children[|a.children| - 1] == w.rec.children[|w.rec.children| - 1]
    ensures Inv(cfg, w.(rec := a))
    ensures Moved(w.rec, a) && a.status == w.rec.status && Steady(w.rec, a)
  {
    hide Inv, Ledger, Uncredited, Learned, Tied, ChildrenAdvanced, BucketsOk;
    AdvancedKeepsIds(w.rec.children, a.children);
    UntouchedLastKeepsBooks(cfg, w, a);
    InformedIsLearned(w.rec, a, a, w.venue);
    LearningKeepsInv(cfg, w, a);
  }

  // ---- delivered results ----

  lemma DeliveryKeepsInv(cfg: Config, w: World, w': World, result: ReconciliationResult)
    requires Inv(cfg, w) && Step(cfg, w, Delivers(result), w')
    ensures Inv(cfg, w')
    ensures Moved(w.rec, w'.rec) && Steady(w.rec, w'.rec)
  {
    hide Inv, Ledger, Informed, ResultOk, WarningOk, ApplyEvidence, ApplyWarning, Tied, Traced, Uncredited;
    InvVenue(cfg, w);
    InvBuckets(cfg, w);
    BooksLedger(w.rec);
    BooksCredited(w.rec);
    DeliveryInforms(w.rec, w.venue, result);
    var r1 := ApplyWarning(ApplyEvidence(w.rec, result), result);
    EvidenceStaysCredited(w.rec, w.venue, result);
    WarningKeepsLedger(ApplyEvidence(w.rec, result), result);
    RefreshedKeepsInv(cfg, w, r1, ApplyResult(w.rec, result));
  }

  /** Nothing is adopted, so the tracker stays equal to the sum over the children. */
  lemma EvidenceStaysCredited(r: Record, v: VenueState, result: ReconciliationResult)
    requires Tied(r, v) && Traced(r.children, v) && ResultOk(v, result) && BooksOk(r)
    ensures Ledger(ApplyEvidence(r, result)) && Uncredited(ApplyEvidence(r, result)) == 0
  {
    hide Tied, Traced, ResultOk, LedgerWith, ApplyEvidence, Sum, BucketsOk, AdoptRows, Informed;
    EvidenceInforms(r, v, result);
    EvidenceKeepsLedger(r, result);
  }

  lemma WarningKeepsLedger(r: Record, result: ReconciliationResult)
    requires Ledger(r)
    ensures Ledger(ApplyWarning(r, result)) && Uncredited(ApplyWarning(r, result)) == Uncredited(r)
  {
    hide Ledger, Uncredited;
    if result.notFound {
      RejectMissingKeepsLedger(r, ClientsOfOrders(result.orders), 0);
    }
  }

  // ---- delivered results with exact lookups ----

  /** A row of an order turns its child into something known. */
  lemma {:induction false} ListedBecomesKnown(r: Record, v: VenueState, rows: seq<ChildOrder>, i: nat)
    requires Tied(r, v) && i < |r.children| && DistinctIds(r.children)
    requires forall k :: 0 <= k < |rows| ==> RowOk(v, rows[k])
    requires HasId(rows, r.children[i].id)
    ensures i < |ApplyRows(r, rows).children| && ApplyRows(r, rows).children[i].status != Unknown
  {
    hide Tied, TakeReport, ReportOk, ChildrenAdvanced, DistinctIds;
    var n := |rows| - 1;
    var r1 := ApplyRows(r, rows[..n]);
    RowsInform(r, v, rows[..n]);
    AdvancedKeepsIds(r.children, r1.children);
    DistinctByIds(r.children, r1.children);
    RowsNoNewUnknown(r1, v, rows[n..]);
    HasIdSplit(rows, r.children[i].id);
    assert RowOk(v, rows[n]);
    if rows[n].id == r.children[i].id {
      IndexOfDistinct(r1.children, i);
      Idempotence.ReportShape(r1, i, rows[n].status, rows[n].confirmed);
      ReportedStatus(v.orders[rows[n].id], rows[n].status, rows[n].confirmed);
    } else {
      ListedBecomesKnown(r, v, rows[..n], i);
      var k := IndexOf(r1.children, rows[n].id);
      if k.Some? {
        Idempotence.ReportShape(r1, k.value, rows[n].status, rows[n].confirmed);
      }
    }
  }

  /** Orders that are still unknown after a fresh result were never heard of: nothing about
      them has changed. */
  lemma StillUnknownIsUntouched(r: Record, v: VenueState, result: ReconciliationResult, i: nat)
    requires Tied(r, v) && Traced(r.children, v) && ResultOk(v, result) && DistinctIds(r.children)
    requires ListsAll(r.children, result) && i < |r.children|
    requires |ApplyEvidence(r, result).children| == |r.children|
    requires ApplyEvidence(r, result).children[i].status == Unknown
    ensures r.children[i].status == Unknown && r.children[i].confirmed == 0
    ensures ApplyEvidence(r, result).children[i] == r.children[i]
  {
    hide Tied, Traced, ApplyFills, ApplyRows, AdoptRows, RowOk, FillOk, ChildrenAdvanced, DistinctIds, HasId;
    EvidenceInforms(r, v, result);
    EvidenceNoNewUnknown(r, v, result);
    TiedVenue(r, v);
    TracedRows(r.children, v, result);
    SortedResultFills(v, r.children, result.fills);
    var sorted := Sort(result.fills, FillLe);
    var filled := ApplyFills(r, result.orders, sorted);
    FillsInform(r, v, result.orders, sorted);
    AdvancedKeepsIds(r.children, filled.children);
    DistinctByIds(r.children, filled.children);
    if HasId(result.orders, r.children[i].id) {
      ListedBecomesKnown(filled, v, result.orders, i);
    } else {
      assert ListedAt(r.children, result, i);
      forall k | 0 <= k < |sorted| ensures sorted[k].client != r.children[i].id {
        assert sorted[k] in result.fills;
      }
      OthersFillsLeaveAlone(r, result.orders, sorted, i);
      OthersRowsLeaveAlone(filled, result.orders, i);
    }
  }

  lemma {:induction false} OthersFillsLeaveAlone(r: Record, rows: seq<ChildOrder>, fills: seq<Fill>, i: nat)
    requires i < |r.children|
    requires forall k :: 0 <= k < |fills| ==> fills[k].client != r.children[i].id
    ensures |ApplyFills(r, rows, fills).children| == |r.children|
    ensures ApplyFills(r, rows, fills).children[i] == r.children[i]
  {
    if fills != [] {
      var n := |fills| - 1;
      OthersFillsLeaveAlone(r, rows, fills[..n], i);
      FillLeavesOthers(ApplyFills(r, rows, fills[..n]), rows, fills[n], i);
    }
  }

  lemma FillLeavesOthers(r: Record, rows: seq<ChildOrder>, f: Fill, i: nat)
    requires i < |r.children| && f.client != r.children[i].id
    ensures |ApplyFill(r, rows, f).children| == |r.children| && ApplyFill(r, rows, f).children[i] == r.children[i]
  {
    hide AcceptedInterval, BookTrade, RaiseConfirmed, RowConfirmed;
    var k := IndexOf(r.children, f.client);
    if k.Some? {
      RaiseLeavesOthers(r, k.value, f.cumulative, f.tradeId, i);
      var t := DetailsOf(f, Max(Max(r.children[k.value].confirmed, RowConfirmed(rows, f.client)), f.cumulative));
      var accepted := AcceptedInterval(r.children[k.value], IntervalsOf(r.intervals, f.client), f.cumulative, t);
      if accepted.Some? {
        BookFrame(RaiseConfirmed(r, k.value, f.cumulative, f.tradeId), f.client, accepted.value, t);
      }
    }
  }

  lemma RaiseLeavesOthers(r: Record, i: nat, incoming: int, tradeId: Option<nat>, j: nat)
    requires i < |r.children| && j < |r.children| && i != j
    ensures |RaiseConfirmed(r, i, incoming, tradeId).children| == |r.children|
    ensures RaiseConfirmed(r, i, incoming, tradeId).children[j] == r.children[j]
  {}

  lemma {:induction false} OthersRowsLeaveAlone(r: Record, rows: seq<ChildOrder>, i: nat)
    requires i < |r.children| && !HasId(rows, r.children[i].id)
    ensures |ApplyRows(r, rows).children| == |r.children|
    ensures ApplyRows(r, rows).children[i] == r.children[i]
  {
    hide TakeReport;
    if rows != [] {
      var n := |rows| - 1;
      HasIdSplit(rows, r.children[i].id);
      OthersRowsLeaveAlone(r, rows[..n], i);
      var r1 := ApplyRows(r, rows[..n]);
      var k := IndexOf(r1.children, rows[n].id);
      if k.Some? {
        Idempotence.ReportShape(r1, k.value, rows[n].status, rows[n].confirmed);
      }
    }
  }

  lemma {:induction false} RowsShape(r: Record, rows: seq<ChildOrder>)
    ensures ApplyRows(r, rows).exposure == r.exposure.(confirmed := ApplyRows(r, rows).exposure.confirmed)
  {
    hide TakeReport;
    if rows != [] {
      var n := |rows| - 1;
      RowsShape(r, rows[..n]);
      var r1 := ApplyRows(r, rows[..n]);
      var k := IndexOf(r1.children, rows[n].id);
      if k.Some? {
        Idempotence.ReportShape(r1, k.value, rows[n].status, rows[n].confirmed);
      }
    }
  }

  lemma EvidenceShape(r: Record, v: VenueState, result: ReconciliationResult)
    requires Tied(r, v) && Traced(r.children, v) && ResultOk(v, result) && Ledger(r)
    ensures ApplyEvidence(r, result).exposure == r.exposure.(confirmed := ApplyEvidence(r, result).exposure.confirmed)
  {
    hide Tied, Traced, ResultOk, LedgerWith, ApplyFills, ApplyRows, AdoptRows, ChildrenGrew;
    EvidenceInforms(r, v, result);
    MoreRows(r, result.orders);
    FillsKeepLedger(r, result.orders, Sort(result.fills, FillLe));
    RowsShape(ApplyFills(r, result.orders, Sort(result.fills, FillLe)), result.orders);
  }

  ghost predicate UnknownAt(children: seq<ChildOrder>, k: nat) {
    k < |children| && children[k].status == Unknown
  }

  lemma {:induction false} ResolutionShape(r: Record, answers: seq<Lookup>, i: nat)
    requires |answers| == |r.children|
    ensures
      var (r', halt) := ResolveUnknownFrom(r, answers, i);
      && |r'.children| == |r.children|
      && r'.exposure == r.exposure.(confirmed := r'.exposure.confirmed)
      && (halt != Ran ==> r'.children[|r.children| - 1] == r.children[|r.children| - 1]
                          && exists k :: i <= k && UnknownAt(r.children, k))
    decreases |r.children| - i
  {
    hide TakeReport;
    if i < |r.children| {
      if r.children[i].status != Unknown {
        ResolutionShape(r, answers, i + 1);
      } else {
        assert UnknownAt(r.children, i);
        match answers[i] {
          case Banned =>
          case Limited =>
          case Raised =>
          case NotFound =>
            ResolutionShape(SetStatus(r, i, Rejected), answers, i + 1);
          case Found(status, filled) =>
            Idempotence.ReportShape(r, i, status, filled);
            ResolutionShape(TakeReport(r, i, status, filled), answers, i + 1);
        }
      }
    }
  }

  lemma {:induction false} ResolutionKeepsLedger(r: Record, answers: seq<Lookup>, i: nat)
    requires Ledger(r) && |answers| == |r.children|
    ensures Ledger(ResolveUnknownFrom(r, answers, i).0)
    ensures Uncredited(ResolveUnknownFrom(r, answers, i).0) == Uncredited(r)
    decreases |r.children| - i
  {
    hide LedgerWith, TakeReport, Sum;
    if i < |r.children| {
      if r.children[i].status != Unknown {
        ResolutionKeepsLedger(r, answers, i + 1);
      } else {
        match answers[i] {
          case Banned =>
          case Limited =>
          case Raised =>
          case NotFound =>
            StatusKeepsLedger(r, [], i, Rejected);
            ResolutionKeepsLedger(SetStatus(r, i, Rejected), answers, i + 1);
          case Found(status, filled) =>
            SnapshotKeepsLedger(r, [], i, status, filled);
            ResolutionKeepsLedger(TakeReport(r, i, status, filled), answers, i + 1);
        }
      }
    }
  }

  /** An order that is still unknown after a fresh result is the last one, exactly as it was. */
  lemma StillUnknownIsLast(cfg: Config, w: World, result: ReconciliationResult, k: nat)
    requires Inv(cfg, w) && ResultOk(w.venue, result) && ListsAll(w.rec.children, result)
    requires UnknownAt(ApplyEvidence(w.rec, result).children, k)
    ensures k == |w.rec.children| - 1 && |ApplyEvidence(w.rec, result).children| == |w.rec.children|
    ensures ApplyEvidence(w.rec, result).children[k] == w.rec.children[k]
  {
    hide Inv, Tied, Traced, ResultOk, ListsAll, ApplyEvidence, ChildrenAdvanced, DistinctIds;
    InvVenue(cfg, w);
    LedgerIds(w.rec) by { InvBuckets(cfg, w); }
    EvidenceInforms(w.rec, w.venue, result);
    AdvancedKeepsIds(w.rec.children, ApplyEvidence(w.rec, result).children);
    StillUnknownIsUntouched(w.rec, w.venue, result, k);
    TiedChild(w.rec, w.venue, k);
    if k + 1 < |w.rec.children| {
      SingleAt(cfg, w, k);
    }
  }

  lemma SingleAt(cfg: Config, w: World, k: nat)
    requires Inv(cfg, w) && k + 1 < |w.rec.children|
    ensures ReservedOf(w.rec.children[k]) == 0
  {
    assert NothingReserved(w.rec.children, k);
  }

  lemma NoNewUnknownTransitive(a: seq<ChildOrder>, b: seq<ChildOrder>, c: seq<ChildOrder>)
    requires NoNewUnknown(a, b) && NoNewUnknown(b, c)
    ensures NoNewUnknown(a, c)
  {}

  /** What the exact lookups and then the warning make of a delivered result. */
  lemma ExactDeliveryInforms(r: Record, v: VenueState, result: ReconciliationResult, answers: seq<Lookup>)
    requires Tied(r, v) && Traced(r.children, v) && BooksOk(r)
    requires ResultOk(v, result) && WarningOk(v, r.children, result)
    requires AnswersOk(v, ApplyEvidence(r, result).children, answers)
    ensures
      var a := ResolveUnknownFrom(ApplyEvidence(r, result), answers, 0).0;
      var b := ApplyWarning(a, result);
      && Informed(r, a, v) && Informed(r, b, v)
      && Ledger(a) && Uncredited(a) == 0 && Ledger(b) && Uncredited(b) == 0
  {
    hide Tied, Traced, BooksOk, ResultOk, WarningOk, ApplyEvidence, ResolveUnknownFrom, ChildrenAdvanced, Ledger, Uncredited,
         NoNewUnknown, MissingAbsent, RejectMissingFrom, AnswersOk, LifeKept;
    var e := ApplyEvidence(r, result);
    AnswersLength(v, e.children, answers);
    var a := ResolveUnknownFrom(e, answers, 0).0;
    EvidenceInforms(r, v, result);
    EvidenceStaysCredited(r, v, result);
    EvidenceNoNewUnknown(r, v, result);
    ResolutionInforms(e, v, answers, 0) by { AllAnswersOk(v, e.children, answers); }
    ResolutionKeepsLedger(e, answers, 0);
    InformedTransitive(r, e, a, v);
    NoNewUnknownTransitive(r.children, e.children, a.children);
    WarningKeepsLedger(a, result);
    if result.notFound {
      WarningStaysOk(r, a, v, result) by { UnfoldNoNewUnknown(r.children, a.children); }
      MissingInforms(a, v, ClientsOfOrders(result.orders), 0);
      InformedTransitive(r, a, ApplyWarning(a, result), v);
    }
  }

  lemma AnswersLength(v: VenueState, children: seq<ChildOrder>, answers: seq<Lookup>)
    requires AnswersOk(v, children, answers)
    ensures |answers| == |children|
  {}

  /** Warnings and the parent's fate do not get in each other's way. */
  lemma WarningCommutes(r: Record, result: ReconciliationResult, now: real)
    ensures RefreshReserved(ApplyWarning(Fail(r), result)) == Fail(RefreshReserved(ApplyWarning(r, result)))
    ensures RefreshReserved(ApplyWarning(BackOff(r, now), result))
            == RefreshReserved(ApplyWarning(r, result).(rateLimitedUntil := Some(now + 1.0)))
  {
    hide RejectMissingFrom, Recomputed;
    var listed := ClientsOfOrders(result.orders);
    Idempotence.RejectMissingShape(r, listed, 0);
    Idempotence.RejectMissingShape(Fail(r), listed, 0);
    Idempotence.RejectMissingShape(BackOff(r, now), listed, 0);
    assert RejectMissingFrom(Fail(r), listed, 0).children == RejectMissingFrom(r, listed, 0).children;
    assert RejectMissingFrom(BackOff(r, now), listed, 0).children == RejectMissingFrom(r, listed, 0).children;
  }

  lemma HaltedDeliveryKeepsInv(cfg: Config, w: World, result: ReconciliationResult, answers: seq<Lookup>)
    requires Inv(cfg, w) && w.rec.call == Idle
    requires ResultOk(w.venue, result) && WarningOk(w.venue, w.rec.children, result) && ListsAll(w.rec.children, result)
    requires AnswersOk(w.venue, ApplyEvidence(w.rec, result).children, answers)
    requires ResolveUnknownFrom(ApplyEvidence(w.rec, result), answers, 0).1 != Ran
    ensures Inv(cfg, w.(rec := ResolveUnknownFrom(ApplyEvidence(w.rec, result), answers, 0).0))
    ensures Moved(w.rec, ResolveUnknownFrom(ApplyEvidence(w.rec, result), answers, 0).0)
    ensures Steady(w.rec, ResolveUnknownFrom(ApplyEvidence(w.rec, result), answers, 0).0)
  {
    hide Inv, Ledger, Uncredited, ResultOk, WarningOk, ListsAll, AnswersOk, ApplyEvidence, ResolveUnknownFrom, Tied, Traced, BooksOk,
         ChildrenAdvanced, Informed, ApplyWarning, UnknownAt;
    var e := ApplyEvidence(w.rec, result);
    AnswersLength(w.venue, e.children, answers);
    var (a, halt) := ResolveUnknownFrom(e, answers, 0);
    InvVenue(cfg, w);
    InvBuckets(cfg, w);
    BooksLedger(w.rec);
    ExactDeliveryInforms(w.rec, w.venue, result, answers);
    EvidenceShape(w.rec, w.venue, result);
    ResolutionShape(e, answers, 0);
    var k: nat :| UnknownAt(e.children, k);
    StillUnknownIsLast(cfg, w, result, k);
    CutKeepsInv(cfg, w, a);
  }

  lemma ExactDeliveryKeepsInv(cfg: Config, w: World, w': World, result: ReconciliationResult, answers: seq<Lookup>)
    requires Inv(cfg, w) && Step(cfg, w, DeliversExact(result, answers), w')
    ensures Inv(cfg, w')
    ensures Moved(w.rec, w'.rec) && Steady(w.rec, w'.rec)
  {
    hide Inv, Ledger, Uncredited, ResultOk, WarningOk, ListsAll, AnswersOk, ApplyEvidence, ResolveUnknownFrom, Tied, Traced, BooksOk,
         ApplyWarning, Informed, Recomputed;
    var e := ApplyEvidence(w.rec, result);
    AnswersLength(w.venue, e.children, answers);
    var (a, halt) := ResolveUnknownFrom(e, answers, 0);
    InvVenue(cfg, w);
    InvBuckets(cfg, w);
    ExactDeliveryInforms(w.rec, w.venue, result, answers);
    var b := ApplyWarning(a, result);
    WarningCommutes(a, result, w.now);
    match halt {
      case Ran =>
        RefreshedKeepsInv(cfg, w, b, RefreshReserved(b));
      case HaltBanned =>
        RefreshedKeepsInv(cfg, w, b, RefreshReserved(b));
        FailKeepsInv(cfg, w.(rec := RefreshReserved(b)));
        FailMoves(w.rec, RefreshReserved(b));
      case HaltLimited =>
        RefreshedKeepsInv(cfg, w, b, RefreshReserved(b.(rateLimitedUntil := Some(w.now + 1.0))));
      case HaltRaised =>
        HaltedDeliveryKeepsInv(cfg, w, result, answers);
    }
  }
}
