/**
 * Payment orders: the `OP-nnnnnnnn` numbering, the totals computed from
 * the payment values and withholdings, the status transitions, and the
 * listing filters of the service and of the model's scopes.
 *
 * Amounts are integer cents. Orders are soft-deleted (`deleted`); their
 * values and withholdings are child rows that are deleted for real.
 */
module PaymentOrders {
  import opened Common
  import opened Clients

  datatype Status = EnProceso | Cerrada | Anulada

  /** The value stored in the `status` enum column. */
  function StatusName(s: Status): string
  {
    match s
    case EnProceso => "en_proceso"
    case Cerrada => "cerrada"
    case Anulada => "anulada"
  }

  /** `status_label`: the display name of a known status, the raw value otherwise. */
  function StatusLabel(status: string): string
  {
    if status == "en_proceso" then "En Proceso"
    else if status == "cerrada" then "Cerrada"
    else if status == "anulada" then "Anulada"
    else status
  }

  /** `status_color`: the badge colour of a known status, `secondary` otherwise. */
  function StatusColor(status: string): string
  {
    if status == "en_proceso" then "warning"
    else if status == "cerrada" then "success"
    else if status == "anulada" then "danger"
    else "secondary"
  }

  /** The three statuses get three different labels and colours; anything else keeps its raw text and `secondary`. */
  lemma StatusPresentation(status: string)
    ensures status == StatusName(EnProceso) ==> StatusLabel(status) == "En Proceso" && StatusColor(status) == "warning"
    ensures status == StatusName(Cerrada) ==> StatusLabel(status) == "Cerrada" && StatusColor(status) == "success"
    ensures status == StatusName(Anulada) ==> StatusLabel(status) == "Anulada" && StatusColor(status) == "danger"
    ensures (forall s: Status :: status != StatusName(s)) ==> StatusLabel(status) == status && StatusColor(status) == "secondary"
  {
  }

  lemma StatusLabelsDistinct(s: Status, t: Status)
    requires s != t
    ensures StatusLabel(StatusName(s)) != StatusLabel(StatusName(t))
    ensures StatusColor(StatusName(s)) != StatusColor(StatusName(t))
  {
  }

  datatype PaymentValue = PaymentValue(paymentType: string, amount: int, reference: Option<string>)

  datatype Withholding = Withholding(taxId: nat, percentage: int, amount: int)

  function ValueAmount(v: PaymentValue): int { v.amount }

  function WithholdingAmount(w: Withholding): int { w.amount }

  /** The validated request of `create` and `update`. */
  datatype OrderData = OrderData(
    supplierId: nat,
    date: int,               // day number
    concept: string,
    detail: Option<string>,
    isAdvance: bool,
    currency: string,
    values: seq<PaymentValue>,
    withholdings: seq<Withholding>)

  datatype PaymentOrder = PaymentOrder(
    id: nat,
    number: string,
    userId: nat,
    supplierId: nat,
    date: int,
    concept: string,
    detail: Option<string>,
    isAdvance: bool,
    currency: string,
    status: Status,
    subtotal: int,
    totalWithholdings: int,
    total: int,
    amountPaid: int,
    balance: int,
    deleted: bool)

  datatype OrderError =
    | ReopenClosed      // "No se puede reabrir una orden cerrada"
    | ModifyCancelled   // "No se puede modificar una orden anulada"
    | DuplicateNumber   // the unique index on `number`
    | NotFound

  const NumberPrefix: string := "OP-"
  const NumberWidth: nat := 8

  /** Σ values.amount. */
  function Subtotal(vs: seq<PaymentValue>): int
  {
    Sum(Amounts(vs, ValueAmount))
  }

  /** Σ withholdings.amount. */
  function TotalWithholdings(ws: seq<Withholding>): int
  {
    Sum(Amounts(ws, WithholdingAmount))
  }

  /** The `foreach` over `$data['values']` that adds each `amount` to `$subtotal`. */
  method SumValues(vs: seq<PaymentValue>) returns (total: int)
    ensures total == Subtotal(vs)
  {
    total := SumAmounts(vs, ValueAmount);
  }

  /** The `foreach` over `$data['withholdings']` that adds each `amount` to `$totalWithholdings`. */
  method SumWithholdings(ws: seq<Withholding>) returns (total: int)
    ensures total == TotalWithholdings(ws)
  {
    total := SumAmounts(ws, WithholdingAmount);
  }

  /** The header fields `create` and `update` write from the request and the two sums. */
  function WithTotals(o: PaymentOrder, d: OrderData, subtotal: int, totalWithholdings: int): (r: PaymentOrder)
    ensures r.id == o.id && r.number == o.number && r.status == o.status && r.deleted == o.deleted
    ensures r.subtotal == subtotal && r.totalWithholdings == totalWithholdings
    ensures r.total == subtotal && r.amountPaid == subtotal && r.balance == 0
  {
    o.(supplierId := d.supplierId, date := d.date, concept := d.concept, detail := d.detail,
       isAdvance := d.isAdvance, currency := d.currency,
       subtotal := subtotal, totalWithholdings := totalWithholdings,
       total := subtotal, amountPaid := subtotal, balance := 0)
  }

  /** The row `create` inserts; `status` takes the column default. */
  function NewOrder(id: nat, number: string, userId: nat, d: OrderData): (o: PaymentOrder)
    ensures o.id == id && o.number == number && o.status == EnProceso && !o.deleted
    ensures o.subtotal == Subtotal(d.values) && o.totalWithholdings == TotalWithholdings(d.withholdings)
  {
    WithTotals(PaymentOrder(id, number, userId, 0, 0, [], None, false, [], EnProceso, 0, 0, 0, 0, 0, false),
               d, Subtotal(d.values), TotalWithholdings(d.withholdings))
  }

  /** The totals never net the withholdings out: 1000.00 paid with 100.00 withheld is still a total of 1000.00. */
  lemma WithholdingsNotSubtracted()
    ensures var d := OrderData(1, 0, "Pago", None, false, "ARS",
                               [PaymentValue("efectivo", 100000, None)], [Withholding(1, 1000, 10000)]);
            var o := NewOrder(1, "OP-00000001", 1, d);
            o.total == 100000 && o.totalWithholdings == 10000 && o.total != o.subtotal - o.totalWithholdings
  {
    var vs := [PaymentValue("efectivo", 100000, None)];
    var ws := [Withholding(1, 1000, 10000)];
    assert Amounts(vs, ValueAmount) == [100000];
    assert Amounts(ws, WithholdingAmount) == [10000];
    assert Sum([100000]) == Sum([]) + 100000;
    assert Sum([10000]) == Sum([]) + 10000;
  }

  // ---------------------------------------------------------------------
  // Numbering

  /** `PaymentOrder::latest('id')->first()`: the order with the highest id that is not trashed. */
  function LatestLive(orders: seq<PaymentOrder>): (r: Option<PaymentOrder>)
    ensures r.None? <==> forall i :: 0 <= i < |orders| ==> orders[i].deleted
    ensures r.Some? ==> r.value in orders && !r.value.deleted
    ensures r.Some? ==> exists k :: 0 <= k < |orders| && orders[k] == r.value && forall i :: k < i < |orders| ==> orders[i].deleted
  {
    if orders == [] then None
    else if !orders[|orders| - 1].deleted then Some(orders[|orders| - 1])
    else LatestLive(orders[..|orders| - 1])
  }

  /** With ids increasing along the table, no live order has a higher id than the latest one. */
  lemma LatestLiveHighestId(orders: seq<PaymentOrder>, nextId: nat)
    requires OrdersWellFormed(orders, nextId)
    ensures LatestLive(orders).Some? ==>
              forall i :: 0 <= i < |orders| && !orders[i].deleted ==> orders[i].id <= LatestLive(orders).value.id
  {
    if LatestLive(orders).Some? {
      var k :| 0 <= k < |orders| && orders[k] == LatestLive(orders).value && forall i :: k < i < |orders| ==> orders[i].deleted;
      forall i | 0 <= i < |orders| && !orders[i].deleted ensures orders[i].id <= orders[k].id {
        if i < k { assert orders[i].id < orders[k].id; }
      }
    }
  }

  /** `intval(substr($lastOrder->number, 3)) + 1`, or 1 for an empty table. */
  function NextCounter(orders: seq<PaymentOrder>): int
  {
    match LatestLive(orders)
    case None => 1
    case Some(o) => IntVal(Substr(o.number, |NumberPrefix|)) + 1
  }

  function NextOrderNumber(orders: seq<PaymentOrder>): string
  {
    FormatSerial(NumberPrefix, NextCounter(orders), NumberWidth)
  }

  /** The first order is `OP-00000001`; after `OP-` + pad8(n) comes `OP-` + pad8(n + 1). */
  lemma NextOrderNumberSteps(orders: seq<PaymentOrder>, n: nat)
    ensures (forall i :: 0 <= i < |orders| ==> orders[i].deleted) ==> NextOrderNumber(orders) == "OP-00000001"
    ensures LatestLive(orders).Some? && LatestLive(orders).value.number == FormatSerial(NumberPrefix, n, NumberWidth) ==>
              NextOrderNumber(orders) == FormatSerial(NumberPrefix, n + 1, NumberWidth)
  {
    if LatestLive(orders).None? {
      assert NextCounter(orders) == 1;
      OrderNumberLiterals();
    } else if LatestLive(orders).value.number == FormatSerial(NumberPrefix, n, NumberWidth) {
      SerialRoundTrip(NumberPrefix, n, NumberWidth);
      assert NextCounter(orders) == n + 1;
    }
  }

  lemma OrderNumberLiterals()
    ensures FormatSerial(NumberPrefix, 1, NumberWidth) == "OP-00000001"
    ensures FormatSerial(NumberPrefix, 2, NumberWidth) == "OP-00000002"
  {
    assert NatToString(1) == "1" && NatToString(2) == "2";
    assert Repeat('0', 7) == "0000000";
  }

  /** The unique index on `number` refuses it: every row counts, trashed or not. */
  predicate NumberTaken(orders: seq<PaymentOrder>, number: string)
  {
    exists i :: 0 <= i < |orders| && orders[i].number == number
  }

  /** When the latest order is trashed, the next number is that order's own, and the insert is refused. */
  lemma TrashedLatestNumberCollides()
    ensures var o1 := NewOrder(1, "OP-00000001", 1, OrderData(1, 0, "A", None, false, "ARS", [], []));
            var o2 := NewOrder(2, "OP-00000002", 1, OrderData(1, 0, "B", None, false, "ARS", [], [])).(deleted := true);
            NextOrderNumber([o1, o2]) == "OP-00000002" && NumberTaken([o1, o2], NextOrderNumber([o1, o2]))
  {
    var o1 := NewOrder(1, "OP-00000001", 1, OrderData(1, 0, "A", None, false, "ARS", [], []));
    var o2 := NewOrder(2, "OP-00000002", 1, OrderData(1, 0, "B", None, false, "ARS", [], [])).(deleted := true);
    assert [o1, o2][..1] == [o1];
    assert LatestLive([o1, o2]) == Some(o1);
    OrderNumberLiterals();
    NextOrderNumberSteps([o1, o2], 1);
    assert [o1, o2][1].number == "OP-00000002";
  }

  // ---------------------------------------------------------------------
  // Status transitions

  /** The guard of `changeStatus`: a closed order is not reopened, a cancelled one not changed at all. */
  function StatusChangeError(current: Status, requested: Status): (e: Option<OrderError>)
    ensures e.None? <==> current != Anulada && !(current == Cerrada && requested == EnProceso)
  {
    if current == Cerrada && requested == EnProceso then Some(ReopenClosed)
    else if current == Anulada then Some(ModifyCancelled)
    else None
  }

  /** The status after a series of `changeStatus` requests, the refused ones leaving it as it was. */
  function AfterRequests(s: Status, requests: seq<Status>): Status
    decreases |requests|
  {
    if requests == [] then s
    else AfterRequests(if StatusChangeError(s, requests[0]).None? then requests[0] else s, requests[1..])
  }

  /** `anulada` is final, and a closed order only ever stays closed or becomes cancelled. */
  lemma {:induction false} StatusesReachable(s: Status, requests: seq<Status>)
    ensures s == Anulada ==> AfterRequests(s, requests) == Anulada
    ensures s == Cerrada ==> AfterRequests(s, requests) != EnProceso
    decreases |requests|
  {
    if requests != [] {
      StatusesReachable(if StatusChangeError(s, requests[0]).None? then requests[0] else s, requests[1..]);
    }
  }

  // ---------------------------------------------------------------------
  // Listing

  datatype OrderFilters = OrderFilters(
    search: Option<string>,
    status: Option<string>,
    startDate: Option<int>,
    endDate: Option<int>)

  /** `orWhereHas('supplier', ...)`: a non-trashed supplier whose nombre or apellido contains the term. */
  predicate SupplierMatches(clients: map<nat, Client>, supplierId: nat, term: string)
  {
    supplierId in clients && !clients[supplierId].deleted
    && (Contains(clients[supplierId].attrs.nombre, term) || Contains(clients[supplierId].attrs.apellido, term))
  }

  /** `getAllWithFilters`' search: number, concept or supplier. */
  predicate ServiceSearch(o: PaymentOrder, clients: map<nat, Client>, term: string)
  {
    Contains(o.number, term) || Contains(o.concept, term) || SupplierMatches(clients, o.supplierId, term)
  }

  /** `scopeSearch`: number, concept, detail or supplier. */
  predicate ScopeSearch(o: PaymentOrder, clients: map<nat, Client>, term: string)
  {
    || Contains(o.number, term)
    || Contains(o.concept, term)
    || (o.detail.Some? && Contains(o.detail.value, term))
    || SupplierMatches(clients, o.supplierId, term)
  }

  /** `scopeByStatus`: no filter for a falsy status or `'all'`, equality otherwise. */
  predicate ScopeByStatus(o: PaymentOrder, status: Option<string>)
  {
    PhpEmpty(status) || status.value == "all" || StatusName(o.status) == status.value
  }

  /** `scopeByDateRange`: each bound optional and inclusive. */
  predicate ScopeByDateRange(o: PaymentOrder, startDate: Option<int>, endDate: Option<int>)
  {
    (startDate.None? || o.date >= startDate.value) && (endDate.None? || o.date <= endDate.value)
  }

  /** The filters `getAllWithFilters` applies to one order. */
  predicate ServiceFilters(o: PaymentOrder, clients: map<nat, Client>, f: OrderFilters)
  {
    && (PhpEmpty(f.search) || ServiceSearch(o, clients, f.search.value))
    && (PhpEmpty(f.status) || StatusName(o.status) == f.status.value)
    && ScopeByDateRange(o, f.startDate, f.endDate)
  }

  /**
   * `getAllWithFilters`: the ids of the non-trashed orders that pass every
   * filter given. A listed order matches the search (so the scope's search
   * too), has the requested status and lies in the date range; every live
   * order that passes is listed.
   */
  function GetAllWithFilters(orders: seq<PaymentOrder>, clients: map<nat, Client>, f: OrderFilters): (r: set<nat>)
    ensures forall id :: id in r ==>
              exists i :: 0 <= i < |orders| && orders[i].id == id && !orders[i].deleted
                && (!PhpEmpty(f.search) ==> ServiceSearch(orders[i], clients, f.search.value)
                                            && ScopeSearch(orders[i], clients, f.search.value))
                && (!PhpEmpty(f.status) ==> StatusName(orders[i].status) == f.status.value)
                && (f.startDate.Some? ==> orders[i].date >= f.startDate.value)
                && (f.endDate.Some? ==> orders[i].date <= f.endDate.value)
    ensures forall i :: 0 <= i < |orders| && !orders[i].deleted && ServiceFilters(orders[i], clients, f) ==>
              orders[i].id in r
    ensures PhpEmpty(f.search) && PhpEmpty(f.status) && f.startDate.None? && f.endDate.None? ==>
              forall i :: 0 <= i < |orders| && !orders[i].deleted ==> orders[i].id in r
  {
    set i | 0 <= i < |orders| && !orders[i].deleted && ServiceFilters(orders[i], clients, f) :: orders[i].id
  }

  /**
   * The service's search finds a subset of what the model's scope finds
   * (it does not look at `detail`), and unlike `scopeByStatus` it reads
   * the status `'all'` literally, so that filter matches no order.
   */
  lemma ServiceFiltersAgainstScopes(o: PaymentOrder, clients: map<nat, Client>, f: OrderFilters)
    ensures !PhpEmpty(f.search) && ServiceSearch(o, clients, f.search.value) ==> ScopeSearch(o, clients, f.search.value)
    ensures f.status == Some("all") ==> !ServiceFilters(o, clients, f) && ScopeByStatus(o, f.status)
    ensures f.status.Some? && f.status.value != "all" ==>
              ((PhpEmpty(f.status) || StatusName(o.status) == f.status.value) <==> ScopeByStatus(o, f.status))
  {
  }

  /** An order whose concept is in its detail only is found by the scope but not by the service. */
  lemma DetailOnlyInScope()
    ensures var o := NewOrder(1, "OP-1", 1, OrderData(1, 0, "Pago", Some("alquiler"), false, "ARS", [], []));
            ScopeSearch(o, map[], "alquiler") && !ServiceSearch(o, map[], "alquiler")
  {
    var o := NewOrder(1, "OP-1", 1, OrderData(1, 0, "Pago", Some("alquiler"), false, "ARS", [], []));
    assert OccursAt("alquiler", "alquiler", 0) by { assert "alquiler"[0..8] == "alquiler"; }
  }

  // ---------------------------------------------------------------------
  // The store invariant, over plain values

  /** Ids increase along the table and stay below the auto-increment counter; numbers are unique. */
  ghost predicate OrdersWellFormed(orders: seq<PaymentOrder>, nextId: nat)
  {
    && (forall i, j :: 0 <= i < j < |orders| ==> orders[i].id < orders[j].id)
    && (forall i :: 0 <= i < |orders| ==> orders[i].id < nextId)
    && (forall i, j :: 0 <= i < j < |orders| ==> orders[i].number != orders[j].number)
  }

  /** Every live order's totals are the sums of the child rows it holds. */
  ghost predicate TotalsInSync(orders: seq<PaymentOrder>, values: seq<Row<PaymentValue>>, withholdings: seq<Row<Withholding>>)
  {
    forall i :: 0 <= i < |orders| && !orders[i].deleted ==>
      && orders[i].subtotal == Subtotal(ItemsOf(values, orders[i].id))
      && orders[i].totalWithholdings == TotalWithholdings(ItemsOf(withholdings, orders[i].id))
      && orders[i].total == orders[i].subtotal
      && orders[i].amountPaid == orders[i].subtotal
      && orders[i].balance == 0
  }

  ghost predicate BookInvariant(orders: seq<PaymentOrder>, values: seq<Row<PaymentValue>>,
                                withholdings: seq<Row<Withholding>>, nextId: nat)
  {
    && OrdersWellFormed(orders, nextId)
    && OwnersBelow(values, nextId)
    && OwnersBelow(withholdings, nextId)
    && TotalsInSync(orders, values, withholdings)
  }

  lemma CreateKeepsInvariant(orders: seq<PaymentOrder>, values: seq<Row<PaymentValue>>,
                             withholdings: seq<Row<Withholding>>, nextId: nat, o: PaymentOrder, d: OrderData)
    requires BookInvariant(orders, values, withholdings, nextId)
    requires o == NewOrder(nextId, o.number, o.userId, d) && !NumberTaken(orders, o.number)
    ensures BookInvariant(orders + [o], values + RowsOf(nextId, d.values),
                          withholdings + RowsOf(nextId, d.withholdings), nextId + 1)
  {
    var orders', values', withholdings' := orders + [o], values + RowsOf(nextId, d.values),
                                           withholdings + RowsOf(nextId, d.withholdings);
    forall i, j | 0 <= i < j < |orders'| ensures orders'[i].number != orders'[j].number {
      if j == |orders| { assert orders'[i] == orders[i]; }
    }
    forall i | 0 <= i < |orders'| && !orders'[i].deleted
      ensures orders'[i].subtotal == Subtotal(ItemsOf(values', orders'[i].id))
      ensures orders'[i].totalWithholdings == TotalWithholdings(ItemsOf(withholdings', orders'[i].id))
    {
      if i < |orders| { assert orders'[i] == orders[i]; }
      AppendFreshRows(values, nextId, d.values, orders'[i].id);
      AppendFreshRows(withholdings, nextId, d.withholdings, orders'[i].id);
    }
    AppendFreshRows(values, nextId, d.values, nextId);
    AppendFreshRows(withholdings, nextId, d.withholdings, nextId);
  }

  /** Rewriting order `j` and replacing its children keeps the invariant, as long as the totals match the new children. */
  lemma ReplaceKeepsInvariant(orders: seq<PaymentOrder>, values: seq<Row<PaymentValue>>,
                              withholdings: seq<Row<Withholding>>, nextId: nat, j: nat,
                              o: PaymentOrder, vs: seq<PaymentValue>, ws: seq<Withholding>)
    requires BookInvariant(orders, values, withholdings, nextId)
    requires j < |orders| && o.id == orders[j].id && o.number == orders[j].number
    requires o.deleted || (o.subtotal == Subtotal(vs) && o.totalWithholdings == TotalWithholdings(ws)
                           && o.total == o.subtotal && o.amountPaid == o.subtotal && o.balance == 0)
    ensures BookInvariant(orders[j := o], DropOwner(values, o.id) + RowsOf(o.id, vs),
                          DropOwner(withholdings, o.id) + RowsOf(o.id, ws), nextId)
  {
    ReplaceKeepsWellFormed(orders, nextId, j, o);
    ReplaceKeepsOwnersBelow(values, o.id, vs, nextId);
    ReplaceKeepsOwnersBelow(withholdings, o.id, ws, nextId);
    forall i | 0 <= i < |orders| && i != j ensures orders[i].id != o.id {
      if i < j { assert orders[i].id < orders[j].id; } else { assert orders[j].id < orders[i].id; }
    }
    ReplaceKeepsTotals(orders, values, withholdings, j, o, vs, ws);
  }

  /** Rewriting order `j` under its own id and number keeps ids increasing and numbers unique. */
  lemma ReplaceKeepsWellFormed(orders: seq<PaymentOrder>, nextId: nat, j: nat, o: PaymentOrder)
    requires OrdersWellFormed(orders, nextId)
    requires j < |orders| && o.id == orders[j].id && o.number == orders[j].number
    ensures OrdersWellFormed(orders[j := o], nextId)
  {
    var orders' := orders[j := o];
    forall a, b | 0 <= a < b < |orders'| ensures orders'[a].id < orders'[b].id && orders'[a].number != orders'[b].number {
      assert orders'[a].id == orders[a].id && orders'[a].number == orders[a].number;
      assert orders'[b].id == orders[b].id && orders'[b].number == orders[b].number;
    }
    forall a | 0 <= a < |orders'| ensures orders'[a].id < nextId {
      assert orders'[a].id == orders[a].id;
    }
  }

  /** The other live orders keep their children; order `j`'s totals match its new children. */
  lemma ReplaceKeepsTotals(orders: seq<PaymentOrder>, values: seq<Row<PaymentValue>>,
                           withholdings: seq<Row<Withholding>>, j: nat,
                           o: PaymentOrder, vs: seq<PaymentValue>, ws: seq<Withholding>)
    requires TotalsInSync(orders, values, withholdings)
    requires j < |orders| && forall i :: 0 <= i < |orders| && i != j ==> orders[i].id != o.id
    requires o.deleted || (o.subtotal == Subtotal(vs) && o.totalWithholdings == TotalWithholdings(ws)
                           && o.total == o.subtotal && o.amountPaid == o.subtotal && o.balance == 0)
    ensures TotalsInSync(orders[j := o], DropOwner(values, o.id) + RowsOf(o.id, vs),
                         DropOwner(withholdings, o.id) + RowsOf(o.id, ws))
  {
    var orders', values', withholdings' := orders[j := o], DropOwner(values, o.id) + RowsOf(o.id, vs),
                                           DropOwner(withholdings, o.id) + RowsOf(o.id, ws);
    forall i | 0 <= i < |orders'| && !orders'[i].deleted
      ensures orders'[i].subtotal == Subtotal(ItemsOf(values', orders'[i].id))
      ensures orders'[i].totalWithholdings == TotalWithholdings(ItemsOf(withholdings', orders'[i].id))
    {
      ReplaceChildren(values, o.id, vs, orders'[i].id);
      ReplaceChildren(withholdings, o.id, ws, orders'[i].id);
      if i != j { assert orders'[i] == orders[i]; }
    }
  }

  /** Only the status of order `j` changes; its rows and totals stay. */
  lemma StatusKeepsInvariant(orders: seq<PaymentOrder>, values: seq<Row<PaymentValue>>,
                             withholdings: seq<Row<Withholding>>, nextId: nat, j: nat, s: Status)
    requires BookInvariant(orders, values, withholdings, nextId) && j < |orders|
    ensures BookInvariant(orders[j := orders[j].(status := s)], values, withholdings, nextId)
  {
  }

  /** The position of the live order with id `id`: what route-model binding finds. */
  function LiveIndex(orders: seq<PaymentOrder>, id: nat): (r: Option<nat>)
    ensures r.Some? ==> r.value < |orders| && orders[r.value].id == id && !orders[r.value].deleted
    ensures r.None? ==> forall i :: 0 <= i < |orders| ==> !(orders[i].id == id && !orders[i].deleted)
  {
    if orders == [] then None
    else if orders[0].id == id && !orders[0].deleted then Some(0)
    else match LiveIndex(orders[1..], id)
      case None => None
      case Some(j) => Some(j + 1)
  }

  class PaymentOrderBook {
    var orders: seq<PaymentOrder>
    var values: seq<Row<PaymentValue>>
    var withholdings: seq<Row<Withholding>>
    var nextId: nat

    ghost predicate Valid()
      reads this
    {
      BookInvariant(orders, values, withholdings, nextId)
    }

    constructor()
      ensures Valid() && orders == [] && values == [] && withholdings == []
    {
      orders := [];
      values := [];
      withholdings := [];
      nextId := 1;
    }

    /**
     * `PaymentOrderService::create`: the next number, the two sums, the
     * order row, then one row per value and per withholding; all in one
     * transaction, so a refused number changes nothing.
     */
    method Create(d: OrderData, userId: nat) returns (r: Result<nat, OrderError>)
      requires Valid()
      modifies this
      ensures Valid()
      ensures NumberTaken(old(orders), NextOrderNumber(old(orders))) ==> r == Err(DuplicateNumber) && unchanged(this)
      ensures !NumberTaken(old(orders), NextOrderNumber(old(orders))) ==>
        && r == Ok(old(nextId))
        && orders == old(orders) + [NewOrder(old(nextId), NextOrderNumber(old(orders)), userId, d)]
        && values == old(values) + RowsOf(old(nextId), d.values)
        && withholdings == old(withholdings) + RowsOf(old(nextId), d.withholdings)
        && ItemsOf(values, old(nextId)) == d.values && ItemsOf(withholdings, old(nextId)) == d.withholdings
    {
      var number := NextOrderNumber(orders);
      var subtotal := SumValues(d.values);
      var totalWithholdings := SumWithholdings(d.withholdings);
      if NumberTaken(orders, number) {
        return Err(DuplicateNumber);
      }
      var o := WithTotals(PaymentOrder(nextId, number, userId, 0, 0, [], None, false, [], EnProceso, 0, 0, 0, 0, 0, false),
                          d, subtotal, totalWithholdings);
      assert o == NewOrder(nextId, number, userId, d);
      r := Ok(nextId);
      InsertOrder(o, d);
    }

    /** `PaymentOrder::create`, then one `values()->create` and one `withholdings()->create` per row. */
    method InsertOrder(o: PaymentOrder, d: OrderData)
      requires Valid() && o == NewOrder(nextId, o.number, o.userId, d) && !NumberTaken(orders, o.number)
      modifies this
      ensures Valid() && nextId == old(nextId) + 1 && orders == old(orders) + [o]
      ensures values == old(values) + RowsOf(old(nextId), d.values)
      ensures withholdings == old(withholdings) + RowsOf(old(nextId), d.withholdings)
      ensures ItemsOf(values, old(nextId)) == d.values && ItemsOf(withholdings, old(nextId)) == d.withholdings
    {
      CreateKeepsInvariant(orders, values, withholdings, nextId, o, d);
      AppendFreshRows(values, nextId, d.values, nextId);
      AppendFreshRows(withholdings, nextId, d.withholdings, nextId);
      orders, values, withholdings, nextId :=
        orders + [o], values + RowsOf(nextId, d.values), withholdings + RowsOf(nextId, d.withholdings), nextId + 1;
    }

    /**
     * `PaymentOrderService::update`: the sums again, the header rewritten,
     * and the values and withholdings replaced by exactly the supplied ones.
     */
    method Update(id: nat, d: OrderData) returns (r: Result<nat, OrderError>)
      requires Valid()
      modifies this
      ensures Valid()
      ensures LiveIndex(old(orders), id).None? ==> r == Err(NotFound) && unchanged(this)
      ensures LiveIndex(old(orders), id).Some? ==>
        var j := LiveIndex(old(orders), id).value;
        && r == Ok(id)
        && orders == old(orders)[j := WithTotals(old(orders)[j], d, Subtotal(d.values), TotalWithholdings(d.withholdings))]
        && values == DropOwner(old(values), id) + RowsOf(id, d.values)
        && withholdings == DropOwner(old(withholdings), id) + RowsOf(id, d.withholdings)
    {
      var found := LiveIndex(orders, id);
      if found.None? {
        return Err(NotFound);
      }
      var j := found.value;
      var subtotal := SumValues(d.values);
      var totalWithholdings := SumWithholdings(d.withholdings);
      ReplaceOrder(j, WithTotals(orders[j], d, subtotal, totalWithholdings), d.values, d.withholdings);
      r := Ok(id);
    }

    /**
     * Order `j` rewritten under its own id and number, and its values and
     * withholdings replaced by `vs` and `ws` (`delete()` then `create` per row).
     */
    method ReplaceOrder(j: nat, o: PaymentOrder, vs: seq<PaymentValue>, ws: seq<Withholding>)
      requires Valid() && j < |orders| && o.id == orders[j].id && o.number == orders[j].number
      requires o.deleted || (o.subtotal == Subtotal(vs) && o.totalWithholdings == TotalWithholdings(ws)
                             && o.total == o.subtotal && o.amountPaid == o.subtotal && o.balance == 0)
      modifies this
      ensures Valid() && nextId == old(nextId) && orders == old(orders)[j := o]
      ensures values == DropOwner(old(values), o.id) + RowsOf(o.id, vs)
      ensures withholdings == DropOwner(old(withholdings), o.id) + RowsOf(o.id, ws)
    {
      ReplaceKeepsInvariant(orders, values, withholdings, nextId, j, o, vs, ws);
      orders, values, withholdings :=
        orders[j := o], DropOwner(values, o.id) + RowsOf(o.id, vs), DropOwner(withholdings, o.id) + RowsOf(o.id, ws);
    }

    /** `PaymentOrderService::changeStatus`: the guard, then only `status` is written. */
    method ChangeStatus(id: nat, requested: Status) returns (r: Result<Status, OrderError>)
      requires Valid()
      modifies this
      ensures Valid()
      ensures LiveIndex(old(orders), id).None? ==> r == Err(NotFound) && unchanged(this)
      ensures LiveIndex(old(orders), id).Some? ==>
        var j := LiveIndex(old(orders), id).value;
        var e := StatusChangeError(old(orders)[j].status, requested);
        && (e.Some? ==> r == Err(e.value) && unchanged(this))
        && (e.None? ==> r == Ok(requested) && orders == old(orders)[j := old(orders)[j].(status := requested)]
                        && values == old(values) && withholdings == old(withholdings))
    {
      var found := LiveIndex(orders, id);
      if found.None? {
        return Err(NotFound);
      }
      var j := found.value;
      var e := StatusChangeError(orders[j].status, requested);
      if e.Some? {
        return Err(e.value);
      }
      StatusKeepsInvariant(orders, values, withholdings, nextId, j, requested);
      orders := orders[j := orders[j].(status := requested)];
      r := Ok(requested);
    }

    /** `PaymentOrderService::delete`: the values and withholdings are deleted, then the order is trashed. */
    method Delete(id: nat) returns (r: Result<bool, OrderError>)
      requires Valid()
      modifies this
      ensures Valid()
      ensures LiveIndex(old(orders), id).None? ==> r == Err(NotFound) && unchanged(this)
      ensures LiveIndex(old(orders), id).Some? ==>
        var j := LiveIndex(old(orders), id).value;
        && r == Ok(true)
        && orders == old(orders)[j := old(orders)[j].(deleted := true)]
        && values == DropOwner(old(values), id) && withholdings == DropOwner(old(withholdings), id)
        && ItemsOf(values, id) == [] && ItemsOf(withholdings, id) == []
    {
      var found := LiveIndex(orders, id);
      if found.None? {
        return Err(NotFound);
      }
      var j := found.value;
      ghost var values0, withholdings0 := values, withholdings;
      ReplaceOrder(j, orders[j].(deleted := true), [], []);
      assert DropOwner(values0, id) + RowsOf(id, []) == DropOwner(values0, id);
      assert DropOwner(withholdings0, id) + RowsOf(id, []) == DropOwner(withholdings0, id);
      ItemsOfDropOwner(values0, id, id);
      ItemsOfDropOwner(withholdings0, id, id);
      r := Ok(true);
    }
  }
}
