/** The values of src/execution/models.py. Quantities are whole numbers of the smallest
    quantity unit, prices whole numbers of the smallest price unit, times real seconds. */
module Models {

  datatype Option<+T> = None | Some(value: T)

  datatype Side = Buy | Sell | NoAction

  datatype Algorithm = Chase | Twap

  datatype DeadlinePolicy = CancelRemainder | AggressiveWithinRange

  datatype ExecutionStatus =
    | Created | Validating | Running | Cancelling
    | Completed | PartiallyCompleted | Expired | Cancelled | Failed
  {
    predicate IsTerminal() {
      Completed? || PartiallyCompleted? || Expired? || Cancelled? || Failed?
    }
  }

  datatype ChildStatus =
    | PendingSubmit | Open | PartiallyFilled | PendingCancel
    | ChildCancelled | Filled | Rejected | Unknown
  {
    predicate IsTerminal() {
      ChildCancelled? || Filled? || Rejected?
    }

    predicate IsLive() {
      Open? || PartiallyFilled?
    }
  }

  /** A child order. Its client order id is the sequence number it was created with. */
  datatype ChildOrder = ChildOrder(id: nat, submitted: nat, price: int, status: ChildStatus, confirmed: nat) {
    function Remaining(): nat {
      if submitted > confirmed then submitted - confirmed else 0
    }
  }

  datatype Exposure = Exposure(confirmed: nat, liveOpen: nat, pendingSubmit: nat, pendingCancel: nat, unknown: nat) {
    function Reserved(): nat {
      liveOpen + pendingSubmit + pendingCancel + unknown
    }
  }

  /** A fill row as delivered by a venue: nothing about its quantities is taken for granted. */
  datatype Fill = Fill(client: nat, tradeId: Option<nat>, cumulative: int, last: int, price: int,
                       eventTime: Option<int>, transactionTime: Option<int>, isMaker: Option<bool>)

  /** `notFound` is the warning CREATE_TIMEOUT_ORDER_NOT_FOUND. */
  datatype ReconciliationResult = ReconciliationResult(orders: seq<ChildOrder>, fills: seq<Fill>, notFound: bool)

  datatype PriceQuantity = PriceQuantity(price: int, quantity: int)

  // ---- sums over child orders ----

  ghost function Sum(children: seq<ChildOrder>, f: ChildOrder -> int): int {
    if children == [] then 0
    else Sum(children[..|children| - 1], f) + f(children[|children| - 1])
  }

  lemma {:induction false} SumUpdate(children: seq<ChildOrder>, i: nat, c: ChildOrder, f: ChildOrder -> int)
    requires i < |children|
    ensures Sum(children[i := c], f) == Sum(children, f) - f(children[i]) + f(c)
  {
    var last := |children| - 1;
    var updated := children[i := c];
    if i == last {
      assert updated[..last] == children[..last];
    } else {
      assert updated[..last] == children[..last][i := c];
      SumUpdate(children[..last], i, c, f);
    }
  }

  lemma SumAppend(children: seq<ChildOrder>, c: ChildOrder, f: ChildOrder -> int)
    ensures Sum(children + [c], f) == Sum(children, f) + f(c)
  {
    assert (children + [c])[..|children|] == children;
  }

  lemma {:induction false} SumNonNegative(children: seq<ChildOrder>, f: ChildOrder -> int)
    requires forall c :: f(c) >= 0
    ensures Sum(children, f) >= 0
    ensures forall i :: 0 <= i < |children| ==> f(children[i]) <= Sum(children, f)
  {
    if children != [] {
      SumNonNegative(children[..|children| - 1], f);
    }
  }

  lemma {:induction false} SumZero(children: seq<ChildOrder>, f: ChildOrder -> int)
    requires forall i :: 0 <= i < |children| ==> f(children[i]) == 0
    ensures Sum(children, f) == 0
  {
    if children != [] {
      SumZero(children[..|children| - 1], f);
    }
  }

  lemma {:induction false} SumOfSums(children: seq<ChildOrder>, f: ChildOrder -> int, g: ChildOrder -> int, h: ChildOrder -> int)
    requires forall c :: h(c) == f(c) + g(c)
    ensures Sum(children, h) == Sum(children, f) + Sum(children, g)
  {
    if children != [] {
      SumOfSums(children[..|children| - 1], f, g, h);
    }
  }

  lemma {:induction false} SumMonotone(a: seq<ChildOrder>, b: seq<ChildOrder>, f: ChildOrder -> int, g: ChildOrder -> int)
    requires |a| == |b|
    requires forall i :: 0 <= i < |a| ==> f(a[i]) <= g(b[i])
    ensures Sum(a, f) <= Sum(b, g)
  {
    if a != [] {
      SumMonotone(a[..|a| - 1], b[..|b| - 1], f, g);
    }
  }

  // ---- what one child order contributes to the exposure buckets ----

  function ConfirmedOf(c: ChildOrder): int { c.confirmed }

  function LiveOf(c: ChildOrder): int { if c.status.IsLive() then c.Remaining() else 0 }

  function PendingSubmitOf(c: ChildOrder): int { if c.status.PendingSubmit? then c.Remaining() else 0 }

  function PendingCancelOf(c: ChildOrder): int { if c.status.PendingCancel? then c.Remaining() else 0 }

  function UnknownOf(c: ChildOrder): int { if c.status.Unknown? then c.Remaining() else 0 }

  /** What a child order may still add to the fills. */
  function ReservedOf(c: ChildOrder): int { if c.status.IsTerminal() then 0 else c.Remaining() }

  /** The most a child order can ever have filled. */
  function CommittedOf(c: ChildOrder): int { ConfirmedOf(c) + ReservedOf(c) }

  // ---- lookup by client order id ----

  function IndexOf(children: seq<ChildOrder>, id: nat): (r: Option<nat>)
    ensures r.Some? ==> r.value < |children| && children[r.value].id == id
    ensures r.Some? ==> forall j :: 0 <= j < r.value ==> children[j].id != id
    ensures r.None? <==> forall j :: 0 <= j < |children| ==> children[j].id != id
  {
    if children == [] then None
    else
      match IndexOf(children[..|children| - 1], id)
      case Some(i) => Some(i)
      case None => if children[|children| - 1].id == id then Some(|children| - 1) else None
  }

  ghost predicate IdsDiffer(children: seq<ChildOrder>, i: nat, j: nat)
    requires i < |children| && j < |children|
  {
    children[i].id != children[j].id
  }

  ghost predicate DistinctIds(children: seq<ChildOrder>) {
    forall i: nat, j: nat :: i < j < |children| ==> IdsDiffer(children, i, j)
  }

  lemma IndexOfDistinct(children: seq<ChildOrder>, i: nat)
    requires i < |children| && DistinctIds(children)
    ensures IndexOf(children, children[i].id) == Some(i)
  {
    forall j: nat | j < i ensures children[j].id != children[i].id {
      assert IdsDiffer(children, j, i);
    }
  }

  lemma DistinctByIds(a: seq<ChildOrder>, b: seq<ChildOrder>)
    requires DistinctIds(a) && |a| == |b|
    requires forall i :: 0 <= i < |a| ==> a[i].id == b[i].id
    ensures DistinctIds(b)
  {
    forall i: nat, j: nat | i < j < |b| ensures IdsDiffer(b, i, j) {
      assert IdsDiffer(a, i, j);
    }
  }

  lemma DistinctPrefix(children: seq<ChildOrder>, n: nat)
    requires DistinctIds(children) && n <= |children|
    ensures DistinctIds(children[..n])
  {
    forall i: nat, j: nat | i < j < n ensures IdsDiffer(children[..n], i, j) {
      assert IdsDiffer(children, i, j);
    }
  }

  lemma DistinctAppend(children: seq<ChildOrder>, c: ChildOrder)
    requires DistinctIds(children)
    requires forall i :: 0 <= i < |children| ==> children[i].id != c.id
    ensures DistinctIds(children + [c])
  {
    forall i: nat, j: nat | i < j < |children + [c]| ensures IdsDiffer(children + [c], i, j) {
      if j < |children| { assert IdsDiffer(children, i, j); }
    }
  }

  // ---- admission ----

  /** Side and absolute quantity that move `current` to `target`. */
  function RequiredTrade(target: int, current: int): (r: (Side, nat)) {
    var quantity := target - current;
    if quantity > 0 then (Buy, quantity)
    else if quantity < 0 then (Sell, -quantity)
    else (NoAction, 0)
  }

  /** The position after trading `filled` units on `side`. */
  function PositionAfter(start: int, side: Side, filled: nat): int {
    match side
    case Buy => start + filled
    case Sell => start - filled
    case NoAction => start
  }
}
