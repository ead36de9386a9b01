/**
 * Cash withdrawals ("egresos"): the `TE0nnnnnnnn` numbering, the total
 * computed from the items, the one status guard, and the listing filters.
 *
 * Amounts are integer cents. Withdrawals are deleted for real, together
 * with their items.
 */
module CashWithdrawals {
  import opened Common

  datatype Status = EnProceso | Cerrado | Anulado

  /** The value stored in the `status` enum column. */
  function StatusName(s: Status): string
  {
    match s
    case EnProceso => "en_proceso"
    case Cerrado => "cerrado"
    case Anulado => "anulado"
  }

  datatype Item = Item(concept: string, observation: Option<string>, amount: int)

  function ItemAmount(i: Item): int { i.amount }

  /** The validated request of `create` and `update`. */
  datatype WithdrawalData = WithdrawalData(
    date: int,                 // day number
    recipient: string,
    reason: string,
    detail: Option<string>,
    currency: string,
    items: seq<Item>)

  datatype Withdrawal = Withdrawal(
    id: nat,
    number: string,
    userId: nat,
    date: int,
    recipient: string,
    reason: string,
    detail: Option<string>,
    currency: string,
    total: int,
    status: Status)

  datatype WithdrawalError =
    | ModifyCancelled   // "No se puede modificar un egreso anulado"
    | DuplicateNumber   // the unique index on `number`
    | NotFound

  const NumberPrefix: string := "TE0"
  const NumberWidth: nat := 8

  /** Σ items.amount. */
  function Total(items: seq<Item>): int
  {
    Sum(Amounts(items, ItemAmount))
  }

  /** The service's loop over the items, adding each amount. */
  method SumItems(items: seq<Item>) returns (total: int)
    ensures total == Total(items)
  {
    total := SumAmounts(items, ItemAmount);
  }

  /** The fields `create` and `update` write from the request and the sum of the items. */
  function WithTotal(w: Withdrawal, d: WithdrawalData, total: int): (r: Withdrawal)
    ensures r.id == w.id && r.number == w.number && r.status == w.status && r.total == total
  {
    w.(date := d.date, recipient := d.recipient, reason := d.reason, detail := d.detail,
       currency := d.currency, total := total)
  }

  /** The row `create` inserts; `status` takes the column default. */
  function NewWithdrawal(id: nat, number: string, userId: nat, d: WithdrawalData): (w: Withdrawal)
    ensures w.id == id && w.number == number && w.status == EnProceso && w.total == Total(d.items)
  {
    WithTotal(Withdrawal(id, number, userId, 0, [], [], None, [], 0, EnProceso), d, Total(d.items))
  }

  /** No items is a total of zero; two lists of items total the sum of their totals. */
  lemma TotalOfItems(a: seq<Item>, b: seq<Item>)
    ensures Total([]) == 0
    ensures Total(a + b) == Total(a) + Total(b)
  {
    assert Amounts(a + b, ItemAmount) == Amounts(a, ItemAmount) + Amounts(b, ItemAmount);
    SumConcat(Amounts(a, ItemAmount), Amounts(b, ItemAmount));
  }

  // ---------------------------------------------------------------------
  // Numbering

  /** `intval(substr($lastWithdrawal->number, 3)) + 1` for the highest id, or 1 for an empty table. */
  function NextCounter(ws: seq<Withdrawal>): int
  {
    if ws == [] then 1 else IntVal(Substr(ws[|ws| - 1].number, |NumberPrefix|)) + 1
  }

  function NextWithdrawalNumber(ws: seq<Withdrawal>): string
  {
    FormatSerial(NumberPrefix, NextCounter(ws), NumberWidth)
  }

  /**
   * `TE0` is three characters, so `substr(..., 3)` cuts exactly the
   * prefix: the first number is `TE000000001` and after `TE0` + pad8(n)
   * comes `TE0` + pad8(n + 1).
   */
  lemma NextWithdrawalNumberSteps(ws: seq<Withdrawal>, n: nat)
    ensures ws == [] ==> NextWithdrawalNumber(ws) == "TE000000001"
    ensures ws != [] && ws[|ws| - 1].number == FormatSerial(NumberPrefix, n, NumberWidth) ==>
              NextWithdrawalNumber(ws) == FormatSerial(NumberPrefix, n + 1, NumberWidth)
  {
    if ws == [] {
      assert NatToString(1) == "1";
      assert Repeat('0', 7) == "0000000";
    } else if ws[|ws| - 1].number == FormatSerial(NumberPrefix, n, NumberWidth) {
      SerialRoundTrip(NumberPrefix, n, NumberWidth);
      assert NextCounter(ws) == n + 1;
    }
  }

  predicate NumberTaken(ws: seq<Withdrawal>, number: string)
  {
    exists i :: 0 <= i < |ws| && ws[i].number == number
  }

  // ---------------------------------------------------------------------
  // Status

  /** The guard of `changeStatus`: only a cancelled withdrawal refuses, whatever the new status. */
  function StatusChangeError(current: Status, requested: Status): (e: Option<WithdrawalError>)
    ensures e.None? <==> current != Anulado
  {
    if current == Anulado then Some(ModifyCancelled) else None
  }

  /** Unlike payment orders, a closed withdrawal may be reopened. */
  lemma ClosedMayReopen()
    ensures StatusChangeError(Cerrado, EnProceso).None?
  {
  }

  // ---------------------------------------------------------------------
  // Listing

  datatype WithdrawalFilters = WithdrawalFilters(
    search: Option<string>,
    status: Option<string>,
    startDate: Option<int>,
    endDate: Option<int>)

  /** The search disjunction: number, recipient or reason. */
  predicate SearchMatches(w: Withdrawal, term: string)
  {
    Contains(w.number, term) || Contains(w.recipient, term) || Contains(w.reason, term)
  }

  /** Each filter applies only when its value is not empty. */
  predicate PassesFilters(w: Withdrawal, f: WithdrawalFilters)
  {
    && (PhpEmpty(f.search) || SearchMatches(w, f.search.value))
    && (PhpEmpty(f.status) || StatusName(w.status) == f.status.value)
    && (f.startDate.None? || w.date >= f.startDate.value)
    && (f.endDate.None? || w.date <= f.endDate.value)
  }

  /**
   * `getAllWithFilters`: the ids of the withdrawals that pass every filter
   * given. A listed withdrawal matches the search on number, recipient or
   * reason, has the requested status and lies in the date range; every
   * withdrawal that passes is listed.
   */
  function GetAllWithFilters(ws: seq<Withdrawal>, f: WithdrawalFilters): (r: set<nat>)
    ensures forall id :: id in r ==>
              exists i :: 0 <= i < |ws| && ws[i].id == id
                && (!PhpEmpty(f.search) ==> Contains(ws[i].number, f.search.value) || Contains(ws[i].recipient, f.search.value)
                                            || Contains(ws[i].reason, f.search.value))
                && (!PhpEmpty(f.status) ==> StatusName(ws[i].status) == f.status.value)
                && (f.startDate.Some? ==> ws[i].date >= f.startDate.value)
                && (f.endDate.Some? ==> ws[i].date <= f.endDate.value)
    ensures forall i :: 0 <= i < |ws| && PassesFilters(ws[i], f) ==> ws[i].id in r
  {
    set i | 0 <= i < |ws| && PassesFilters(ws[i], f) :: ws[i].id
  }

  /** With no filter every withdrawal is listed, and each filter only narrows the listing. */
  lemma FiltersNarrow(ws: seq<Withdrawal>, f: WithdrawalFilters)
    ensures GetAllWithFilters(ws, WithdrawalFilters(None, None, None, None)) == set i | 0 <= i < |ws| :: ws[i].id
    ensures GetAllWithFilters(ws, f) <= GetAllWithFilters(ws, f.(search := None))
    ensures GetAllWithFilters(ws, f) <= GetAllWithFilters(ws, f.(status := None))
  {
  }

  // ---------------------------------------------------------------------
  // The store invariant, over plain values

  ghost predicate WithdrawalsWellFormed(ws: seq<Withdrawal>, nextId: nat)
  {
    && (forall i, j :: 0 <= i < j < |ws| ==> ws[i].id < ws[j].id)
    && (forall i :: 0 <= i < |ws| ==> ws[i].id < nextId)
    && (forall i, j :: 0 <= i < j < |ws| ==> ws[i].number != ws[j].number)
  }

  /** Every stored total is the sum of the withdrawal's items. */
  ghost predicate TotalsInSync(ws: seq<Withdrawal>, items: seq<Row<Item>>)
  {
    forall i :: 0 <= i < |ws| ==> ws[i].total == Total(ItemsOf(items, ws[i].id))
  }

  ghost predicate StoreInvariant(ws: seq<Withdrawal>, items: seq<Row<Item>>, nextId: nat)
  {
    WithdrawalsWellFormed(ws, nextId) && OwnersBelow(items, nextId) && TotalsInSync(ws, items)
  }

  lemma CreateKeepsInvariant(ws: seq<Withdrawal>, items: seq<Row<Item>>, nextId: nat, w: Withdrawal, xs: seq<Item>)
    requires StoreInvariant(ws, items, nextId)
    requires w.id == nextId && w.total == Total(xs) && !NumberTaken(ws, w.number)
    ensures StoreInvariant(ws + [w], items + RowsOf(nextId, xs), nextId + 1)
    ensures ItemsOf(items + RowsOf(nextId, xs), nextId) == xs
  {
    var ws', items' := ws + [w], items + RowsOf(nextId, xs);
    forall i, j | 0 <= i < j < |ws'| ensures ws'[i].number != ws'[j].number {
      if j == |ws| { assert ws'[i] == ws[i]; }
    }
    forall i | 0 <= i < |ws'| ensures ws'[i].total == Total(ItemsOf(items', ws'[i].id)) {
      if i < |ws| { assert ws'[i] == ws[i]; }
      AppendFreshRows(items, nextId, xs, ws'[i].id);
    }
    AppendFreshRows(items, nextId, xs, nextId);
  }

  lemma ReplaceKeepsInvariant(ws: seq<Withdrawal>, items: seq<Row<Item>>, nextId: nat, j: nat, w: Withdrawal, xs: seq<Item>)
    requires StoreInvariant(ws, items, nextId)
    requires j < |ws| && w.id == ws[j].id && w.number == ws[j].number && w.total == Total(xs)
    ensures StoreInvariant(ws[j := w], DropOwner(items, w.id) + RowsOf(w.id, xs), nextId)
  {
    var ws', items' := ws[j := w], DropOwner(items, w.id) + RowsOf(w.id, xs);
    ReplaceKeepsOwnersBelow(items, w.id, xs, nextId);
    forall i | 0 <= i < |ws'| ensures ws'[i].total == Total(ItemsOf(items', ws'[i].id)) {
      ReplaceChildren(items, w.id, xs, ws'[i].id);
      if i != j { assert ws'[i] == ws[i] && ws[i].id != w.id; }
    }
  }

  lemma RemoveKeepsInvariant(ws: seq<Withdrawal>, items: seq<Row<Item>>, nextId: nat, j: nat)
    requires StoreInvariant(ws, items, nextId) && j < |ws|
    ensures StoreInvariant(RemoveAt(ws, j), DropOwner(items, ws[j].id), nextId)
  {
    var id := ws[j].id;
    RemoveKeepsWellFormed(ws, nextId, j);
    ReplaceKeepsOwnersBelow(items, id, [], nextId);
    assert DropOwner(items, id) + RowsOf(id, []) == DropOwner(items, id);
    RemoveKeepsTotals(ws, items, j);
  }

  lemma RemoveKeepsWellFormed(ws: seq<Withdrawal>, nextId: nat, j: nat)
    requires WithdrawalsWellFormed(ws, nextId) && j < |ws|
    ensures WithdrawalsWellFormed(RemoveAt(ws, j), nextId)
  {
    var ws' := RemoveAt(ws, j);
    forall a, b | 0 <= a < b < |ws'| ensures ws'[a].id < ws'[b].id && ws'[a].number != ws'[b].number {
      var a0, b0 := if a < j then a else a + 1, if b < j then b else b + 1;
      assert ws'[a] == ws[a0] && ws'[b] == ws[b0] && a0 < b0;
    }
  }

  lemma RemoveKeepsTotals(ws: seq<Withdrawal>, items: seq<Row<Item>>, j: nat)
    requires j < |ws| && TotalsInSync(ws, items)
    requires forall a, b :: 0 <= a < b < |ws| ==> ws[a].id < ws[b].id
    ensures TotalsInSync(RemoveAt(ws, j), DropOwner(items, ws[j].id))
  {
    var id := ws[j].id;
    var ws', items' := RemoveAt(ws, j), DropOwner(items, id);
    forall i | 0 <= i < |ws'| ensures ws'[i].total == Total(ItemsOf(items', ws'[i].id)) {
      var i0 := if i < j then i else i + 1;
      assert ws'[i] == ws[i0] && ws[i0].id != id;
      ItemsOfDropOwner(items, id, ws[i0].id);
    }
  }

  /** The position of the withdrawal with id `id`. */
  function IndexOf(ws: seq<Withdrawal>, id: nat): (r: Option<nat>)
    ensures r.Some? ==> r.value < |ws| && ws[r.value].id == id
    ensures r.None? ==> forall i :: 0 <= i < |ws| ==> ws[i].id != id
  {
    if ws == [] then None
    else if ws[0].id == id then Some(0)
    else match IndexOf(ws[1..], id)
      case None => None
      case Some(j) => Some(j + 1)
  }

  class WithdrawalBook {
    var withdrawals: seq<Withdrawal>
    var items: seq<Row<Item>>
    var nextId: nat

    ghost predicate Valid()
      reads this
    {
      StoreInvariant(withdrawals, items, nextId)
    }

    constructor()
      ensures Valid() && withdrawals == [] && items == []
    {
      withdrawals := [];
      items := [];
      nextId := 1;
    }

    /** `CashWithdrawalService::create`: the next number, the total, the row and its items, in one transaction. */
    method Create(d: WithdrawalData, userId: nat) returns (r: Result<nat, WithdrawalError>)
      requires Valid()
      modifies this
      ensures Valid()
      ensures NumberTaken(old(withdrawals), NextWithdrawalNumber(old(withdrawals))) ==>
                r == Err(DuplicateNumber) && unchanged(this)
      ensures !NumberTaken(old(withdrawals), NextWithdrawalNumber(old(withdrawals))) ==>
        && r == Ok(old(nextId))
        && withdrawals == old(withdrawals) + [NewWithdrawal(old(nextId), NextWithdrawalNumber(old(withdrawals)), userId, d)]
        && items == old(items) + RowsOf(old(nextId), d.items)
        && ItemsOf(items, old(nextId)) == d.items
    {
      var number := NextWithdrawalNumber(withdrawals);
      var total := SumItems(d.items);
      if NumberTaken(withdrawals, number) {
        return Err(DuplicateNumber);
      }
      var w := WithTotal(Withdrawal(nextId, number, userId, 0, [], [], None, [], 0, EnProceso), d, total);
      assert w == NewWithdrawal(nextId, number, userId, d);
      r := Ok(nextId);
      InsertWithdrawal(w, d.items);
    }

    /** `CashWithdrawal::create`, then one `items()->create` per item. */
    method InsertWithdrawal(w: Withdrawal, xs: seq<Item>)
      requires Valid() && w.id == nextId && w.total == Total(xs) && !NumberTaken(withdrawals, w.number)
      modifies this
      ensures Valid() && nextId == old(nextId) + 1 && withdrawals == old(withdrawals) + [w]
      ensures items == old(items) + RowsOf(old(nextId), xs) && ItemsOf(items, old(nextId)) == xs
    {
      CreateKeepsInvariant(withdrawals, items, nextId, w, xs);
      withdrawals, items, nextId := withdrawals + [w], items + RowsOf(nextId, xs), nextId + 1;
    }

    /** `CashWithdrawalService::update`: the total again, the row rewritten, the items replaced by exactly the supplied ones. */
    method Update(id: nat, d: WithdrawalData) returns (r: Result<nat, WithdrawalError>)
      requires Valid()
      modifies this
      ensures Valid()
      ensures IndexOf(old(withdrawals), id).None? ==> r == Err(NotFound) && unchanged(this)
      ensures IndexOf(old(withdrawals), id).Some? ==>
        var j := IndexOf(old(withdrawals), id).value;
        && r == Ok(id)
        && withdrawals == old(withdrawals)[j := WithTotal(old(withdrawals)[j], d, Total(d.items))]
        && items == DropOwner(old(items), id) + RowsOf(id, d.items)
        && ItemsOf(items, id) == d.items
    {
      var found := IndexOf(withdrawals, id);
      if found.None? {
        return Err(NotFound);
      }
      var j := found.value;
      var total := SumItems(d.items);
      ReplaceWithdrawal(j, WithTotal(withdrawals[j], d, total), d.items);
      r := Ok(id);
    }

    /** Withdrawal `j` rewritten under its own id and number, its items replaced by `xs`. */
    method ReplaceWithdrawal(j: nat, w: Withdrawal, xs: seq<Item>)
      requires Valid() && j < |withdrawals| && w.id == withdrawals[j].id && w.number == withdrawals[j].number
      requires w.total == Total(xs)
      modifies this
      ensures Valid() && nextId == old(nextId) && withdrawals == old(withdrawals)[j := w]
      ensures items == DropOwner(old(items), w.id) + RowsOf(w.id, xs) && ItemsOf(items, w.id) == xs
    {
      ReplaceKeepsInvariant(withdrawals, items, nextId, j, w, xs);
      ReplaceChildren(items, w.id, xs, w.id);
      withdrawals, items := withdrawals[j := w], DropOwner(items, w.id) + RowsOf(w.id, xs);
    }

    /** `CashWithdrawalService::changeStatus`: refused on a cancelled withdrawal, otherwise only `status` is written. */
    method ChangeStatus(id: nat, requested: Status) returns (r: Result<Status, WithdrawalError>)
      requires Valid()
      modifies this
      ensures Valid()
      ensures IndexOf(old(withdrawals), id).None? ==> r == Err(NotFound) && unchanged(this)
      ensures IndexOf(old(withdrawals), id).Some? ==>
        var j := IndexOf(old(withdrawals), id).value;
        && (old(withdrawals)[j].status == Anulado ==> r == Err(ModifyCancelled) && unchanged(this))
        && (old(withdrawals)[j].status != Anulado ==>
              r == Ok(requested) && withdrawals == old(withdrawals)[j := old(withdrawals)[j].(status := requested)]
              && items == old(items))
    {
      var found := IndexOf(withdrawals, id);
      if found.None? {
        return Err(NotFound);
      }
      var j := found.value;
      var e := StatusChangeError(withdrawals[j].status, requested);
      if e.Some? {
        return Err(e.value);
      }
      withdrawals := withdrawals[j := withdrawals[j].(status := requested)];
      r := Ok(requested);
    }

    /** `CashWithdrawalService::delete`: the items, then the withdrawal itself. */
    method Delete(id: nat) returns (r: Result<bool, WithdrawalError>)
      requires Valid()
      modifies this
      ensures Valid()
      ensures IndexOf(old(withdrawals), id).None? ==> r == Err(NotFound) && unchanged(this)
      ensures IndexOf(old(withdrawals), id).Some? ==>
        && r == Ok(true)
        && withdrawals == RemoveAt(old(withdrawals), IndexOf(old(withdrawals), id).value)
        && items == DropOwner(old(items), id)
        && ItemsOf(items, id) == []
    {
      var found := IndexOf(withdrawals, id);
      if found.None? {
        return Err(NotFound);
      }
      RemoveKeepsInvariant(withdrawals, items, nextId, found.value);
      ItemsOfDropOwner(items, id, id);
      withdrawals := RemoveAt(withdrawals, found.value);
      items := DropOwner(items, id);
      r := Ok(true);
    }
  }
}
