/** Order placement, access and status changes on behalf of an authenticated caller. */
module OrderService {
  import opened Results
  import opened Entities
  import opened Seqs
  import opened DataStore
  import Totals

  /** The `quantity` of a requested line as `Number(it.quantity || 1)` sees it:
      NoQuantity stands for every falsy value (absent, null, 0, ""), Quantity(n)
      for the number a truthy value converts to. */
  datatype QuantityInput = NoQuantity | Quantity(n: real)

  /** A requested line; the identity is already the string the source coerces it to. */
  datatype LineInput = LineInput(menuItemId: Id, quantity: QuantityInput)

  function Max(a: real, b: real): real { if a < b then b else a }

  function NormalizeLine(it: LineInput): Line
  {
    var q := match it.quantity
      case NoQuantity => 1.0
      case Quantity(n) => n;
    Line(it.menuItemId, Max(1.0, q))
  }

  /** The normalised lines: same items in the same order, a missing quantity becomes 1
      and any quantity below 1 is raised to 1. */
  function Normalize(items: seq<LineInput>): (r: seq<Line>)
    ensures |r| == |items|
    ensures forall i :: 0 <= i < |r| ==> r[i].menuItemId == items[i].menuItemId && r[i].quantity >= 1.0
    ensures forall i :: 0 <= i < |r| && items[i].quantity.NoQuantity? ==> r[i].quantity == 1.0
    ensures forall i :: 0 <= i < |r| && items[i].quantity.Quantity? && items[i].quantity.n >= 1.0 ==>
              r[i].quantity == items[i].quantity.n
    ensures forall i :: 0 <= i < |r| && items[i].quantity.Quantity? && items[i].quantity.n < 1.0 ==>
              r[i].quantity == 1.0
  {
    seq(|items|, i requires 0 <= i < |items| => NormalizeLine(items[i]))
  }

  /** Normalising one line out of the middle: its normalised line drops out of the middle. */
  lemma NormalizeSplit(front: seq<LineInput>, x: LineInput, back: seq<LineInput>)
    ensures Normalize(front + [x] + back) == Normalize(front) + [NormalizeLine(x)] + Normalize(back)
    ensures Normalize(front + back) == Normalize(front) + Normalize(back)
  {
  }

  /** One step of the reordering argument: with the last line of `a` found at `b[k]`,
      the normalised lines are reorderings of each other once they are without that line. */
  lemma NormalizePermutationStep(a: seq<LineInput>, b: seq<LineInput>, k: nat)
    requires |a| > 0 && k < |b| && b[k] == a[|a| - 1]
    requires multiset(Normalize(a[..|a| - 1])) == multiset(Normalize(b[..k] + b[k + 1..]))
    ensures multiset(Normalize(a)) == multiset(Normalize(b))
  {
    var x := a[|a| - 1];
    assert a == a[..|a| - 1] + [x] + [];
    assert b == b[..k] + [x] + b[k + 1..];
    NormalizeSplit(a[..|a| - 1], x, []);
    NormalizeSplit(b[..k], x, b[k + 1..]);
    MultisetInsert(Normalize(b[..k]), NormalizeLine(x), Normalize(b[k + 1..]));
    MultisetInsert(Normalize(a[..|a| - 1]), NormalizeLine(x), []);
  }

  /** Normalising reordered lines gives the normalised lines reordered. */
  lemma {:induction false} NormalizePermutation(a: seq<LineInput>, b: seq<LineInput>)
    requires multiset(a) == multiset(b)
    ensures multiset(Normalize(a)) == multiset(Normalize(b))
    decreases |a|
  {
    if |a| == 0 {
      assert |b| == |multiset(b)| == 0;
    } else {
      assert a[|a| - 1] in multiset(b);
      var k :| 0 <= k < |b| && b[k] == a[|a| - 1];
      MultisetRemoveLast(a, b, k);
      NormalizePermutation(a[..|a| - 1], b[..k] + b[k + 1..]);
      NormalizePermutationStep(a, b, k);
    }
  }

  /** The price of an order, or its failure, does not depend on the order of the requested lines. */
  lemma CreateOrderTotalOrderIndependent(menu: seq<MenuItem>, a: seq<LineInput>, b: seq<LineInput>)
    requires multiset(a) == multiset(b)
    ensures Quote(menu, Normalize(a)) == Quote(menu, Normalize(b))
  {
    NormalizePermutation(a, b);
    Totals.QuotePermutation(menu, Normalize(a), Normalize(b));
  }

  /** Every stored line has a quantity of at least one. */
  ghost predicate QuantitiesValid(orders: seq<Order>)
  {
    forall i, j :: 0 <= i < |orders| && 0 <= j < |orders[i].items| ==> orders[i].items[j].quantity >= 1.0
  }

  /** Orders change only in their status and update time: the same orders, in the same
      places, with the same identity, owner, lines, total and creation time. */
  ghost predicate SameOrdersUpToStatus(before: seq<Order>, after: seq<Order>)
  {
    && |after| == |before|
    && forall i :: 0 <= i < |after| ==>
         after[i] == before[i].(status := after[i].status, updatedAt := after[i].updatedAt)
  }

  method CreateOrder(store: Store, userId: Id, items: Option<seq<LineInput>>, now: Timestamp)
    returns (r: Result<Order>)
    requires store.Valid()
    modifies store
    ensures store.Valid()
    ensures store.users == old(store.users) && store.menuItems == old(store.menuItems)
    ensures (items.None? || |items.value| == 0) ==> r == Fail(InvalidInput)
    ensures items.Some? && |items.value| > 0 && Quote(store.menuItems, Normalize(items.value)).Fail? ==>
              r == Fail(InvalidInput)
    ensures r.Fail? <==>
      items.None? || |items.value| == 0 || Quote(store.menuItems, Normalize(items.value)).Fail?
    ensures r.Fail? ==> store.orders == old(store.orders)
    ensures r.Ok? ==>
      && Quote(store.menuItems, Normalize(items.value)) == Ok(r.value.total)
      && r.value.userId == userId
      && r.value.items == Normalize(items.value)
      && r.value.status == Pending
      && r.value.createdAt == now && r.value.updatedAt == now
      && (forall o :: o in old(store.orders) ==> o.id != r.value.id)
      && store.orders == old(store.orders) + [r.value]
    ensures QuantitiesValid(old(store.orders)) ==> QuantitiesValid(store.orders)
  {
    if items.None? || |items.value| == 0 {
      return Fail(InvalidInput);
    }
    var normalized := Normalize(items.value);
    var total := store.ComputeOrderTotal(normalized);
    if total.Fail? {
      return Fail(total.failure);
    }
    var order := store.CreateOrder(userId, normalized, total.value, now);
    r := Ok(order);
  }

  /** The order with identity `id`, if the caller may see it. */
  function GetOrder(store: Store, caller: Caller, id: Id): (r: Result<Order>)
    reads store
    ensures r == Fail(NotFound) <==> forall j :: 0 <= j < |store.orders| ==> store.orders[j].id != id
    ensures r == Fail(Forbidden) <==>
      store.GetOrder(id).Some? && !caller.IsAdmin() && store.GetOrder(id).value.userId != caller.id
    ensures r.Fail? ==> r.failure == NotFound || r.failure == Forbidden
    ensures r.Ok? ==>
      && r.value == store.GetOrder(id).value
      && r.value.id == id
      && (caller.IsAdmin() || r.value.userId == caller.id)
  {
    var order := store.GetOrder(id);
    if order.None? then Fail(NotFound)
    else if !caller.IsAdmin() && order.value.userId != caller.id then Fail(Forbidden)
    else Ok(order.value)
  }

  /** Orders the caller may list: an admin sees every order, anyone else only their own;
      a non-empty status narrows the list to orders in that status. */
  function ListOrders(store: Store, caller: Caller, status: Option<string>): (r: seq<Order>)
    reads store
    ensures forall i :: 0 <= i < |r| ==> r[i] in store.orders
    ensures !caller.IsAdmin() ==> forall i :: 0 <= i < |r| ==> r[i].userId == caller.id
    ensures status.Some? && status.value != "" ==>
              forall i :: 0 <= i < |r| ==> StatusName(r[i].status) == status.value
    ensures forall i :: 0 <= i < |store.orders|
              && (caller.IsAdmin() || store.orders[i].userId == caller.id)
              && (status.None? || status.value == "" || StatusName(store.orders[i].status) == status.value)
              ==> store.orders[i] in r
    ensures SubseqOf(r, store.orders)
  {
    var byStatus := if status.Some? && status.value != "" then status else None;
    var byUser := if caller.IsAdmin() then None else Some(caller.id);
    store.ListOrders(OrderFilter(byUser, byStatus))
  }

  method UpdateStatus(store: Store, caller: Caller, id: Id, next: string, now: Timestamp)
    returns (r: Result<Order>)
    requires store.Valid()
    modifies store
    ensures store.Valid()
    ensures store.users == old(store.users) && store.menuItems == old(store.menuItems)
    ensures SameOrdersUpToStatus(old(store.orders), store.orders)
    ensures QuantitiesValid(old(store.orders)) ==> QuantitiesValid(store.orders)
    // a name outside the six is refused before the order is looked up
    ensures next !in ValidStatuses ==> r == Fail(InvalidInput)
    ensures next in ValidStatuses && old(store.GetOrder(id)).None? ==> r == Fail(NotFound)
    ensures next in ValidStatuses && old(store.GetOrder(id)).Some? ==>
      var o := old(store.GetOrder(id)).value;
      && (caller.IsAdmin() ==> r.Ok?)
      && (!caller.IsAdmin() ==>
            (r.Ok? <==> caller.id == o.userId && next == "cancelled" && o.status == Pending))
      && (r.Fail? ==> r.failure == Forbidden)
    ensures r.Fail? ==> store.orders == old(store.orders)
    ensures r.Ok? ==>
      var k := old(store.OrderIndex(id));
      && 0 <= k
      && StatusName(r.value.status) == next
      && r.value == old(store.orders)[k].(status := r.value.status, updatedAt := now)
      && store.orders == old(store.orders)[k := r.value]
  {
    var status := ParseStatus(next);
    if status.None? {
      return Fail(InvalidInput);
    }
    var order := store.GetOrder(id);
    if order.None? {
      return Fail(NotFound);
    }
    if caller.IsAdmin() {
      var updated := store.UpdateOrderStatus(id, status.value, now);
      return Ok(updated.value);
    }
    if caller.id == order.value.userId && next == "cancelled" && order.value.status == Pending {
      var updated := store.UpdateOrderStatus(id, Cancelled, now);
      return Ok(updated.value);
    }
    return Fail(Forbidden);
  }
}
