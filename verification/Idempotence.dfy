/** Delivering the same reconciliation result twice is the same as delivering it once. */
module Idempotence {
  import opened Models
  import opened StateMachine
  import opened Intervals
  import opened Sorting
  import opened Records
  import opened FillLedger

  /** Equal but for what is counted about duplicate events. */
  ghost predicate OnlyDuplicates(r: Record, r': Record) {
    r' == r.(ignored := r'.ignored, duplicates := r'.duplicates)
  }

  /** One order row per client order id. */
  ghost predicate OneRowPerOrder(rows: seq<ChildOrder>) { DistinctIds(rows) }

  /** The public call that applies a delivered result: the evidence, then the parent status. */
  ghost function Deliver(cfg: Config, r: Record, result: ReconciliationResult): Record {
    Settle(cfg, ApplyResult(r, result))
  }

  ghost function Settle(cfg: Config, r: Record): Record {
    if r.status == ExecutionStatus.Cancelling then TerminalizeManualCancel(cfg, r)
    else if !r.status.IsTerminal() && TargetFilled(cfg, r) then Complete(r)
    else r
  }

  // ---- fills that have nothing left to say ----

  ghost predicate AnonymousRefused(intervals: seq<Interval>, f: Fill) {
    f.last <= 0 || f.cumulative < f.last || FillIntervalOverlaps(f.cumulative - f.last, f.cumulative, intervals)
  }

  ghost predicate Absorbed(r: Record, f: Fill) {
    || IndexOf(r.children, f.client).None?
    || (match f.tradeId
        case Some(id) => id in r.seen
        case None => AnonymousRefused(IntervalsOf(r.intervals, f.client), f))
  }

  ghost predicate SameIds(a: seq<ChildOrder>, b: seq<ChildOrder>) {
    |a| == |b| && forall i :: 0 <= i < |a| ==> a[i].id == b[i].id
  }

  /** What keeps a fill absorbed: the ids stay, seen trades and booked intervals only grow. */
  ghost predicate LedgerGrows(r: Record, r': Record) {
    && SameIds(r.children, r'.children)
    && r.seen <= r'.seen
    && (forall id :: IntervalsOf(r.intervals, id) <= IntervalsOf(r'.intervals, id))
  }

  lemma SameIdsIndex(a: seq<ChildOrder>, b: seq<ChildOrder>, id: nat)
    requires SameIds(a, b)
    ensures IndexOf(a, id) == IndexOf(b, id)
  {
    var i, j := IndexOf(a, id), IndexOf(b, id);
    if i.Some? {
      assert b[i.value].id == id;
    }
  }

  lemma OverlapsMore(start: int, end: int, a: seq<Interval>, b: seq<Interval>)
    requires a <= b && FillIntervalOverlaps(start, end, a)
    ensures FillIntervalOverlaps(start, end, b)
  {
    var i :| 0 <= i < |a| && start < a[i].end && end > a[i].start;
    assert b[i] == a[i];
  }

  lemma AbsorbedStaysAbsorbed(r: Record, r': Record, f: Fill)
    requires Absorbed(r, f) && LedgerGrows(r, r')
    ensures Absorbed(r', f)
  {
    SameIdsIndex(r.children, r'.children, f.client);
    if IndexOf(r.children, f.client).Some? && f.tradeId.None? {
      var a, b := IntervalsOf(r.intervals, f.client), IntervalsOf(r'.intervals, f.client);
      if FillIntervalOverlaps(f.cumulative - f.last, f.cumulative, a) {
        OverlapsMore(f.cumulative - f.last, f.cumulative, a, b);
      }
    }
  }

  lemma LedgerGrowsTransitive(a: Record, b: Record, c: Record)
    requires LedgerGrows(a, b) && LedgerGrows(b, c)
    ensures LedgerGrows(a, c)
  {
    forall id ensures IntervalsOf(a.intervals, id) <= IntervalsOf(c.intervals, id) {
      var x, y, z := IntervalsOf(a.intervals, id), IntervalsOf(b.intervals, id), IntervalsOf(c.intervals, id);
      assert x == y[..|x|] && y == z[..|y|];
    }
  }

  lemma UpdateGrows(r: Record, i: nat, incoming: int, trade: Option<TradeDetails>)
    requires i < |r.children|
    ensures LedgerGrows(r, UpdateFill(r, i, incoming, trade))
  {
    hide ChildrenGrew, UpdateFill;
    UpdateFrame(r, i, incoming, trade);
    var r' := UpdateFill(r, i, incoming, trade);
    GrewSameIds(r.children, r'.children);
    forall id ensures IntervalsOf(r.intervals, id) <= IntervalsOf(r'.intervals, id) {
      IntervalsGrow(r, i, incoming, trade, id);
    }
  }

  lemma IntervalsGrow(r: Record, i: nat, incoming: int, trade: Option<TradeDetails>, id: nat)
    requires i < |r.children|
    ensures IntervalsOf(r.intervals, id) <= IntervalsOf(UpdateFill(r, i, incoming, trade).intervals, id)
  {
    hide AcceptedInterval, RaiseConfirmed, BookTrade;
    var accepted := if trade.None? then None else
      AcceptedInterval(r.children[i], IntervalsOf(r.intervals, r.children[i].id), incoming, trade.value);
    IntervalsOfRaised(r, i, incoming, if trade.None? then None else trade.value.tradeId);
    if accepted.Some? {
      var raised := RaiseConfirmed(r, i, incoming, trade.value.tradeId);
      IntervalsOfBooked(raised, r.children[i].id, accepted.value, trade.value);
    }
  }

  lemma IntervalsOfRaised(r: Record, i: nat, incoming: int, tradeId: Option<nat>)
    requires i < |r.children|
    ensures RaiseConfirmed(r, i, incoming, tradeId).intervals == r.intervals
  {}

  lemma IntervalsOfBooked(r: Record, id: nat, iv: Interval, t: TradeDetails)
    ensures BookTrade(r, id, iv, t).intervals == r.intervals[id := IntervalsOf(r.intervals, id) + [iv]]
  {
    hide RebuiltInputs;
  }

  lemma GrewSameIds(a: seq<ChildOrder>, b: seq<ChildOrder>)
    requires ChildrenGrew(a, b)
    ensures SameIds(a, b)
  {
    forall i | 0 <= i < |a| ensures a[i].id == b[i].id {
      assert GrewAt(a, b, i);
    }
  }

  lemma FillBecomesAbsorbed(r: Record, rows: seq<ChildOrder>, f: Fill)
    ensures Absorbed(ApplyFill(r, rows, f), f)
    ensures LedgerGrows(r, ApplyFill(r, rows, f))
  {
    hide LedgerGrows, RebuiltInputs, RowConfirmed, PrefixEnd;
    var index := IndexOf(r.children, f.client);
    if index.None? {
      GrowsReflexive(r);
    } else {
      var i := index.value;
      var limit := Max(Max(r.children[i].confirmed, RowConfirmed(rows, f.client)), f.cumulative);
      UpdateGrows(r, i, f.cumulative, Some(DetailsOf(f, limit)));
      if f.tradeId.None? && !AnonymousRefused(IntervalsOf(r.intervals, f.client), f) {
        AnonymousIsBooked(r, i, f, limit);
      }
    }
  }

  lemma GrowsReflexive(r: Record)
    ensures LedgerGrows(r, r)
  {}

  lemma AnonymousIsBooked(r: Record, i: nat, f: Fill, limit: int)
    requires i < |r.children| && r.children[i].id == f.client && limit >= f.cumulative
    requires f.tradeId.None? && !AnonymousRefused(IntervalsOf(r.intervals, f.client), f)
    ensures
      var r' := UpdateFill(r, i, f.cumulative, Some(DetailsOf(f, limit)));
      AnonymousRefused(IntervalsOf(r'.intervals, f.client), f)
  {
    hide WindowLocalFillInterval, RebuiltInputs;
    var r' := UpdateFill(r, i, f.cumulative, Some(DetailsOf(f, limit)));
    var iv := Interval(f.cumulative - f.last, f.cumulative);
    var ivs := IntervalsOf(r'.intervals, f.client);
    assert ivs == IntervalsOf(r.intervals, f.client) + [iv];
    assert ivs[|ivs| - 1] == iv;
  }

  lemma AbsorbedChangesNothing(r: Record, rows: seq<ChildOrder>, f: Fill)
    requires Absorbed(r, f)
    ensures OnlyDuplicates(r, ApplyFill(r, rows, f))
  {
    hide BookTrade, RowConfirmed, PrefixEnd, RaiseConfirmed;
    if IndexOf(r.children, f.client).Some? && f.tradeId.Some? {
      assert f.tradeId.value in r.seen;
    }
  }

  lemma AbsorbedIgnoresDuplicates(r: Record, r': Record, f: Fill)
    requires OnlyDuplicates(r, r') && Absorbed(r, f)
    ensures Absorbed(r', f)
  {}

  ghost predicate FillsAbsorbed(r: Record, fills: seq<Fill>) {
    forall k :: 0 <= k < |fills| ==> Absorbed(r, fills[k])
  }

  lemma {:induction false} AbsorbedFillsChangeNothing(r: Record, rows: seq<ChildOrder>, fills: seq<Fill>)
    requires FillsAbsorbed(r, fills)
    ensures OnlyDuplicates(r, ApplyFills(r, rows, fills))
  {
    hide Absorbed, ApplyFill;
    if fills != [] {
      var n := |fills| - 1;
      AbsorbedFillsChangeNothing(r, rows, fills[..n]);
      var r1 := ApplyFills(r, rows, fills[..n]);
      assert Absorbed(r, fills[n]);
      AbsorbedIgnoresDuplicates(r, r1, fills[n]);
      AbsorbedChangesNothing(r1, rows, fills[n]);
    }
  }

  lemma {:induction false} FillsBecomeAbsorbed(r: Record, rows: seq<ChildOrder>, fills: seq<Fill>)
    ensures FillsAbsorbed(ApplyFills(r, rows, fills), fills)
    ensures LedgerGrows(r, ApplyFills(r, rows, fills))
  {
    hide Absorbed, ApplyFill, LedgerGrows;
    if fills == [] {
      GrowsReflexive(r);
    } else {
      var n := |fills| - 1;
      FillsBecomeAbsorbed(r, rows, fills[..n]);
      var r1 := ApplyFills(r, rows, fills[..n]);
      FillBecomesAbsorbed(r1, rows, fills[n]);
      var r2 := ApplyFill(r1, rows, fills[n]);
      LedgerGrowsTransitive(r, r1, r2);
      forall k | 0 <= k < |fills| ensures Absorbed(r2, fills[k]) {
        if k < n {
          assert Absorbed(r1, fills[..n][k]);
          AbsorbedStaysAbsorbed(r1, r2, fills[k]);
        }
      }
    }
  }

  // ---- rows that have nothing left to say ----

  ghost predicate RowAbsorbed(children: seq<ChildOrder>, row: ChildOrder) {
    var i := IndexOf(children, row.id);
    && i.Some?
    && children[i.value].confirmed >= row.confirmed
    && SetChildStatus(children[i.value].status, row.status) == children[i.value].status
  }

  /** Every child of `a` whose id is not `id` is unchanged in `b`. */
  ghost predicate SameExcept(a: seq<ChildOrder>, b: seq<ChildOrder>, ids: set<nat>) {
    SameIds(a, b) && forall i :: 0 <= i < |a| && a[i].id !in ids ==> b[i] == a[i]
  }

  lemma RowStaysAbsorbed(a: seq<ChildOrder>, b: seq<ChildOrder>, ids: set<nat>, row: ChildOrder)
    requires RowAbsorbed(a, row) && SameExcept(a, b, ids) && row.id !in ids
    ensures RowAbsorbed(b, row)
  {
    SameIdsIndex(a, b, row.id);
  }

  lemma ReportShape(r: Record, i: nat, target: ChildStatus, filled: nat)
    requires i < |r.children|
    ensures
      var r' := TakeReport(r, i, target, filled);
      && r'.children == r.children[i := r.children[i].(status := SetChildStatus(r.children[i].status, target),
                                                      confirmed := Max(r.children[i].confirmed, filled))]
      && r' == r.(children := r'.children, exposure := r.exposure.(confirmed := r'.exposure.confirmed), rejects := r'.rejects)
      && r'.exposure.confirmed == r.exposure.confirmed + r'.children[i].confirmed - r.children[i].confirmed
      && (r'.rejects == r.rejects || r'.rejects == [])
  {
    hide SetChildStatus, ResetsRejectGate;
    var r1 := SetStatus(r, i, target);
    var r2 := RaiseConfirmed(r1, i, filled, None);
    assert r2.children == r.children[i := r2.children[i]];
  }

  /** Learning that an unknown order exists ends the reject streak, and no other report does. */
  lemma ReportStreak(r: Record, i: nat, target: ChildStatus, filled: nat)
    requires i < |r.children|
    ensures
      var r' := TakeReport(r, i, target, filled);
      && |r'.children| == |r.children|
      && var (known, confirmed) := (r'.children[i].status, r'.children[i].confirmed);
         r'.rejects == if r.children[i].status == Unknown
                          && (known == Open || known == PartiallyFilled || known == Filled || (known == ChildCancelled && confirmed > 0))
                       then [] else r.rejects
  {
    hide SetChildStatus, UpdateFill;
    UpdateFrame(SetStatus(r, i, target), i, filled, None);
  }

  /** Child `k` is a row as it was reported, its fills still to come if the result lists any. */
  ghost predicate AdoptedAt(children: seq<ChildOrder>, row: ChildOrder, fillClients: set<nat>, k: nat)
    requires k < |children|
  {
    children[k] == row.(confirmed := if row.id in fillClients then 0 else row.confirmed)
  }

  lemma {:induction false} AdoptionAppends(r: Record, rows: seq<ChildOrder>, fillClients: set<nat>)
    ensures
      var r' := AdoptRows(r, rows, fillClients);
      r.children <= r'.children && r' == r.(children := r'.children)
  {
    if rows != [] {
      AdoptionAppends(r, rows[..|rows| - 1], fillClients);
    }
  }

  /** Every order reported for the first time is adopted as reported, and nothing else changes. */
  lemma {:induction false} UnknownRowsAreAdopted(r: Record, rows: seq<ChildOrder>, fillClients: set<nat>, m: nat)
    requires DistinctIds(rows) && m < |rows| && !HasId(r.children, rows[m].id)
    ensures
      var r' := AdoptRows(r, rows, fillClients);
      && r.children <= r'.children && r' == r.(children := r'.children)
      && exists k: nat :: |r.children| <= k < |r'.children| && AdoptedAt(r'.children, rows[m], fillClients, k)
  {
    hide DistinctIds, HasId;
    var n := |rows| - 1;
    var earlier, r' := AdoptRows(r, rows[..n], fillClients), AdoptRows(r, rows, fillClients);
    AdoptionAppends(r, rows, fillClients);
    AdoptionAppends(r, rows[..n], fillClients);
    if m == n {
      AdoptedIds(r, rows[..n], fillClients, rows[m].id);
      NotAmongEarlier(rows, n);
      KnownById(earlier.children, rows[m].id);
      assert AdoptedAt(r'.children, rows[m], fillClients, |earlier.children|);
    } else {
      FewerDistinct(rows);
      UnknownRowsAreAdopted(r, rows[..n], fillClients, m);
      var k: nat :| |r.children| <= k < |earlier.children| && AdoptedAt(earlier.children, rows[m], fillClients, k);
      assert AdoptedAt(r'.children, rows[m], fillClients, k);
    }
  }

  lemma NotAmongEarlier(rows: seq<ChildOrder>, n: nat)
    requires DistinctIds(rows) && n < |rows|
    ensures !HasId(rows[..n], rows[n].id)
  {
    forall i: nat | i < n ensures rows[i].id != rows[n].id {
      assert IdsDiffer(rows, i, n);
    }
  }

  lemma FewerDistinct(rows: seq<ChildOrder>)
    requires DistinctIds(rows) && rows != []
    ensures DistinctIds(rows[..|rows| - 1])
  {
    var few := rows[..|rows| - 1];
    forall i: nat, j: nat | i < j < |few| ensures IdsDiffer(few, i, j) {
      assert IdsDiffer(rows, i, j);
    }
  }

  lemma RowBecomesAbsorbed(r: Record, row: ChildOrder)
    requires IndexOf(r.children, row.id).Some?
    ensures RowAbsorbed(ApplyRow(r, row).children, row)
    ensures SameExcept(r.children, ApplyRow(r, row).children, {row.id})
    ensures LedgerGrows(r, ApplyRow(r, row))
  {
    hide TakeReport;
    var i := IndexOf(r.children, row.id).value;
    ReportShape(r, i, row.status, row.confirmed);
    var r' := ApplyRow(r, row);
    assert SameIds(r.children, r'.children);
    SameIdsIndex(r.children, r'.children, row.id);
    SetChildStatusIdempotent(r.children[i].status, row.status);
  }

  lemma AbsorbedRowChangesNothing(r: Record, row: ChildOrder)
    requires RowAbsorbed(r.children, row)
    ensures ApplyRow(r, row) == r
  {
    var i := IndexOf(r.children, row.id).value;
    assert r.children[i := r.children[i]] == r.children;
    ReportShape(r, i, row.status, row.confirmed);
  }

  lemma {:induction false} AbsorbedRowsChangeNothing(r: Record, rows: seq<ChildOrder>)
    requires RowsAbsorbed(r.children, rows)
    ensures ApplyRows(r, rows) == r
  {
    hide RowAbsorbed, ApplyRow;
    if rows != [] {
      var n := |rows| - 1;
      AbsorbedRowsChangeNothing(r, rows[..n]);
      AbsorbedRowChangesNothing(r, rows[n]);
    }
  }

  ghost predicate RowsAbsorbed(children: seq<ChildOrder>, rows: seq<ChildOrder>) {
    forall k :: 0 <= k < |rows| ==> RowAbsorbed(children, rows[k])
  }

  lemma OneMoreRowAbsorbed(a: seq<ChildOrder>, b: seq<ChildOrder>, rows: seq<ChildOrder>)
    requires rows != [] && DistinctIds(rows)
    requires RowsAbsorbed(a, rows[..|rows| - 1]) && RowAbsorbed(b, rows[|rows| - 1])
    requires SameExcept(a, b, {rows[|rows| - 1].id})
    ensures RowsAbsorbed(b, rows)
  {
    hide RowAbsorbed, SameExcept, DistinctIds;
    forall k | 0 <= k < |rows| ensures RowAbsorbed(b, rows[k]) {
      if k < |rows| - 1 {
        assert RowAbsorbed(a, rows[..|rows| - 1][k]);
        LastIdDiffers(rows, k);
        RowStaysAbsorbed(a, b, {rows[|rows| - 1].id}, rows[k]);
      }
    }
  }

  ghost predicate RowsKnown(children: seq<ChildOrder>, rows: seq<ChildOrder>) {
    forall k :: 0 <= k < |rows| ==> HasId(children, rows[k].id)
  }

  lemma {:induction false} RowsBecomeAbsorbed(r: Record, rows: seq<ChildOrder>)
    requires OneRowPerOrder(rows) && RowsKnown(r.children, rows)
    ensures RowsAbsorbed(ApplyRows(r, rows).children, rows)
    ensures LedgerGrows(r, ApplyRows(r, rows))
  {
    hide LedgerGrows, HasId, DistinctIds, RowAbsorbed, SameExcept, ApplyRow;
    if rows == [] {
      GrowsReflexive(r);
    } else {
      var n := |rows| - 1;
      DistinctPrefix(rows, n);
      assert RowsKnown(r.children, rows[..n]);
      RowsBecomeAbsorbed(r, rows[..n]);
      var r1 := ApplyRows(r, rows[..n]);
      assert HasId(r.children, rows[n].id);
      GrownHasId(r, r1, rows[n].id);
      RowBecomesAbsorbed(r1, rows[n]);
      LedgerGrowsTransitive(r, r1, ApplyRow(r1, rows[n]));
      OneMoreRowAbsorbed(r1.children, ApplyRow(r1, rows[n]).children, rows);
    }
  }

  lemma LastIdDiffers(rows: seq<ChildOrder>, k: nat)
    requires DistinctIds(rows) && k < |rows| - 1
    ensures rows[k].id != rows[|rows| - 1].id
  {
    assert IdsDiffer(rows, k, |rows| - 1);
  }

  lemma GrownHasId(r: Record, r': Record, id: nat)
    requires LedgerGrows(r, r') && HasId(r.children, id)
    ensures HasId(r'.children, id) && IndexOf(r'.children, id).Some?
  {
    HasIdKept(r.children, r'.children, id);
  }

  lemma HasIdKept(a: seq<ChildOrder>, b: seq<ChildOrder>, id: nat)
    requires SameIds(a, b) && HasId(a, id)
    ensures HasId(b, id) && IndexOf(b, id).Some?
  {
    var i :| 0 <= i < |a| && a[i].id == id;
    assert b[i].id == id;
  }

  // ---- warnings and adoption ----

  ghost predicate NothingMissing(children: seq<ChildOrder>, listed: set<nat>) {
    forall i :: 0 <= i < |children| && children[i].status == Unknown ==> children[i].id in listed
  }

  lemma {:induction false} NothingMissingChangesNothing(r: Record, listed: set<nat>, i: nat)
    requires NothingMissing(r.children, listed)
    ensures RejectMissingFrom(r, listed, i) == r
    decreases |r.children| - i
  {
    if i < |r.children| {
      NothingMissingChangesNothing(r, listed, i + 1);
    }
  }

  /** The warning rejects every unlisted unknown order from `i` on and touches nothing else. */
  lemma {:induction false} RejectMissingShape(r: Record, listed: set<nat>, i: nat)
    ensures
      var r' := RejectMissingFrom(r, listed, i);
      && r' == r.(children := r'.children) && |r'.children| == |r.children|
      && (forall j :: 0 <= j < |r.children| ==>
            r'.children[j] == if j >= i && r.children[j].status == Unknown && r.children[j].id !in listed
                              then r.children[j].(status := Rejected) else r.children[j])
    decreases |r.children| - i
  {
    if i < |r.children| {
      if r.children[i].status == Unknown && r.children[i].id !in listed {
        RejectMissingShape(SetStatus(r, i, Rejected), listed, i + 1);
      } else {
        RejectMissingShape(r, listed, i + 1);
      }
    }
  }

  lemma {:induction false} AllKnownAdoptsNothing(r: Record, rows: seq<ChildOrder>, clients: set<nat>)
    requires RowsKnown(r.children, rows)
    ensures AdoptRows(r, rows, clients) == r
  {
    if rows != [] {
      AllKnownAdoptsNothing(r, rows[..|rows| - 1], clients);
    }
  }

  // ---- main result ----

  /** Everything a result could say has been said. */
  ghost predicate Heard(r: Record, result: ReconciliationResult) {
    && FillsAbsorbed(r, result.fills)
    && RowsAbsorbed(r.children, result.orders)
    && (result.notFound ==> NothingMissing(r.children, ClientsOfOrders(result.orders)))
  }

  lemma FillOrderIsTotal()
    ensures TotalOrder(FillLe)
  {}

  /** The order of fills does not matter to what is absorbed. */
  lemma SortedFillsAbsorbed(r: Record, fills: seq<Fill>)
    ensures FillsAbsorbed(r, Sort(fills, FillLe)) <==> FillsAbsorbed(r, fills)
  {
    hide FillsAbsorbed, Sort, FillLe;
    FillOrderIsTotal();
    SortMembers(fills, FillLe);
    var sorted := Sort(fills, FillLe);
    if FillsAbsorbed(r, fills) { MembersAbsorbed(r, fills, sorted); }
    if FillsAbsorbed(r, sorted) { MembersAbsorbed(r, sorted, fills); }
  }

  lemma MembersAbsorbed(r: Record, a: seq<Fill>, b: seq<Fill>)
    requires FillsAbsorbed(r, a) && forall f :: f in b ==> f in a
    ensures FillsAbsorbed(r, b)
  {
    hide Absorbed;
    forall k | 0 <= k < |b| ensures Absorbed(r, b[k]) {
      assert b[k] in a;
      var j :| 0 <= j < |a| && a[j] == b[k];
    }
  }

  lemma HeardAfterApply(r: Record, result: ReconciliationResult)
    requires OneRowPerOrder(result.orders)
    ensures Heard(ApplyWarning(ApplyEvidence(r, result), result), result)
  {
    hide Absorbed, RowAbsorbed, LedgerGrows, AdoptRows, ApplyRows, ApplyFills, OneRowPerOrder;
    var rows, clients := result.orders, ClientsOfFills(result.fills);
    var adopted := AdoptRows(r, rows, clients);
    forall k | 0 <= k < |rows| ensures HasId(adopted.children, rows[k].id) {
      AdoptedIds(r, rows, clients, rows[k].id);
      assert HasId(rows, rows[k].id);
    }
    var sorted := Sort(result.fills, FillLe);
    FillsBecomeAbsorbed(adopted, rows, sorted);
    var filled := ApplyFills(adopted, rows, sorted);
    SortedFillsAbsorbed(filled, result.fills);
    GrownIds(adopted, filled, rows);
    RowsBecomeAbsorbed(filled, rows) by { assert OneRowPerOrder(rows); }
    var evidence := ApplyRows(filled, rows);
    forall k | 0 <= k < |result.fills| ensures Absorbed(evidence, result.fills[k]) {
      AbsorbedStaysAbsorbed(filled, evidence, result.fills[k]);
    }
    WarningKeepsHeard(evidence, result);
  }

  lemma GrownIds(r: Record, r': Record, rows: seq<ChildOrder>)
    requires LedgerGrows(r, r')
    requires RowsKnown(r.children, rows)
    ensures RowsKnown(r'.children, rows)
  {
    forall k | 0 <= k < |rows| ensures HasId(r'.children, rows[k].id) {
      HasIdKept(r.children, r'.children, rows[k].id);
    }
  }

  lemma WarningKeepsHeard(r: Record, result: ReconciliationResult)
    requires FillsAbsorbed(r, result.fills)
    requires RowsAbsorbed(r.children, result.orders)
    ensures Heard(ApplyWarning(r, result), result)
  {
    hide Absorbed, RowAbsorbed;
    if result.notFound {
      var listed := ClientsOfOrders(result.orders);
      var r' := ApplyWarning(r, result);
      RejectMissingShape(r, listed, 0);
      var ids := set i | 0 <= i < |r.children| && r.children[i].id !in listed :: r.children[i].id;
      assert SameExcept(r.children, r'.children, ids);
      assert LedgerGrows(r, r');
      forall k | 0 <= k < |result.orders| ensures RowAbsorbed(r'.children, result.orders[k]) {
        assert result.orders[k].id in listed;
        RowStaysAbsorbed(r.children, r'.children, ids, result.orders[k]);
      }
      forall k | 0 <= k < |result.fills| ensures Absorbed(r', result.fills[k]) {
        AbsorbedStaysAbsorbed(r, r', result.fills[k]);
      }
    }
  }

  lemma HeardChangesNothing(r: Record, result: ReconciliationResult)
    requires Heard(r, result)
    ensures OnlyDuplicates(r, ApplyWarning(ApplyEvidence(r, result), result))
  {
    hide FillsAbsorbed, RowAbsorbed, ApplyFills, ApplyRows, AdoptRows, Sort;
    forall k | 0 <= k < |result.orders| ensures HasId(r.children, result.orders[k].id) {
      AbsorbedHasId(r.children, result.orders[k]);
    }
    AllKnownAdoptsNothing(r, result.orders, ClientsOfFills(result.fills));
    var sorted := Sort(result.fills, FillLe);
    SortedFillsAbsorbed(r, result.fills);
    AbsorbedFillsChangeNothing(r, result.orders, sorted);
    AbsorbedRowsChangeNothing(ApplyFills(r, result.orders, sorted), result.orders);
    if result.notFound {
      NothingMissingChangesNothing(ApplyEvidence(r, result), ClientsOfOrders(result.orders), 0);
    }
  }

  lemma AbsorbedHasId(children: seq<ChildOrder>, row: ChildOrder)
    requires RowAbsorbed(children, row)
    ensures HasId(children, row.id)
  {}

  /** The buckets and the parent status do not influence what a result has left to say. */
  lemma HeardIgnoresOutcome(r: Record, r': Record, result: ReconciliationResult)
    requires Heard(r, result)
    requires r' == r.(exposure := r'.exposure, status := r'.status, summary := r'.summary)
    ensures Heard(r', result)
  {
    hide RowAbsorbed;
    forall k | 0 <= k < |result.fills| ensures Absorbed(r', result.fills[k]) {
      assert Absorbed(r, result.fills[k]);
    }
  }

  /** A second delivery of the same result leaves child orders, exposure, intervals, price
      inputs, maker and taker totals, parent status and summary as the first one did; only the
      count of duplicate events may change. */
  lemma ReconciliationIsIdempotent(cfg: Config, r: Record, result: ReconciliationResult)
    requires OneRowPerOrder(result.orders)
    ensures OnlyDuplicates(Deliver(cfg, r, result), Deliver(cfg, Deliver(cfg, r, result), result))
  {
    hide Heard, ApplyEvidence, ApplyWarning, Recomputed;
    HeardAfterApply(r, result);
    var applied := ApplyWarning(ApplyEvidence(r, result), result);
    var once := Deliver(cfg, r, result);
    HeardIgnoresOutcome(applied, once, result);
    HeardChangesNothing(once, result);
    var again := ApplyWarning(ApplyEvidence(once, result), result);
    assert once.exposure == Recomputed(once.children, once.exposure.confirmed) by {
      assert once.children == applied.children && once.exposure.confirmed == applied.exposure.confirmed by { RecomputedConfirmed(applied); }
      RecomputedConfirmed(applied);
    }
    assert OnlyDuplicates(once, RefreshReserved(again));
    SettledStays(cfg, ApplyResult(r, result));
  }

  lemma RecomputedConfirmed(r: Record)
    ensures Recomputed(r.children, r.exposure.confirmed).confirmed == r.exposure.confirmed
    ensures Recomputed(r.children, Recomputed(r.children, r.exposure.confirmed).confirmed) == Recomputed(r.children, r.exposure.confirmed)
  {}

  lemma SettledStays(cfg: Config, r: Record)
    ensures Settle(cfg, Settle(cfg, r)) == Settle(cfg, r)
  {
    var once := Settle(cfg, r);
    if once.status == r.status {
      assert once == r;
    } else {
      assert once.status.IsTerminal();
    }
  }
}
