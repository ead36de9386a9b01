/**
 * Receipts: the `REC-nnnnnn` numbering, the subtotal and total computed
 * from the items, the defaults of a new receipt, and the difference
 * between the subtotal the service computes and the item subtotals it
 * stores.
 *
 * The service's loops iterate over copies of the items, so the subtotal
 * recomputed inside a loop reaches the receipt's sum but never the item
 * rows: on create the rows store the subtotal the caller supplied, on
 * update they store cantidad × precio_unitario while items that carry an
 * id contribute their supplied subtotal to the receipt's sum.
 *
 * Amounts are integer cents. Receipts are soft-deleted; their items are
 * left in place.
 */
module Receipts {
  import opened Common

  /** One item of the request; `subtotal` is whatever the caller sent, if anything. */
  datatype ItemInput = ItemInput(
    id: Option<nat>,
    descripcion: string,
    cantidad: int,
    precioUnitario: int,
    subtotal: Option<int>)

  /** A stored `receipt_items` row. */
  datatype StoredItem = StoredItem(descripcion: string, cantidad: int, precioUnitario: int, subtotal: int)

  /** The request; `clientId` is none when the key is missing or null. */
  datatype ReceiptData = ReceiptData(
    clientId: Option<nat>,
    fechaRecibo: Option<int>,    // day number
    estado: Option<string>,
    impuesto: Option<int>,
    referencia: Option<string>,
    concepto: Option<string>,
    observaciones: Option<string>,
    metodoPago: Option<string>,
    items: seq<ItemInput>)

  datatype Receipt = Receipt(
    id: nat,
    clientId: nat,
    numeroRecibo: string,
    fechaRecibo: int,
    estado: string,
    subtotal: int,
    impuesto: int,
    total: int,
    referencia: Option<string>,
    concepto: Option<string>,
    observaciones: Option<string>,
    metodoPago: string,
    deleted: bool)

  datatype ReceiptError =
    | MissingSubtotal     // an item without the `subtotal` key the loop reads
    | MissingClient       // `client_id` missing (undefined key) or null (NOT NULL column)
    | MissingField        // `estado`, `fecha_recibo` or `metodo_pago` absent on update
    | MalformedNumber     // the latest number has no `-` to split on
    | DuplicateNumber     // the unique index on `numero_recibo`
    | NotFound

  const NumberPrefix: string := "REC-"
  const NumberWidth: nat := 6
  const DefaultEstado: string := "pendiente"
  const DefaultMetodoPago: string := "efectivo"

  /** cantidad × precio_unitario. */
  function LineTotal(i: ItemInput): int
  {
    i.cantidad * i.precioUnitario
  }

  // ---------------------------------------------------------------------
  // Numbering

  /** The text up to the next `-`. */
  function UntilDash(s: string): (t: string)
    ensures |t| <= |s| && t == s[..|t|]
    ensures forall i :: 0 <= i < |t| ==> t[i] != '-'
    ensures |t| < |s| ==> s[|t|] == '-'
  {
    if s == [] || s[0] == '-' then [] else [s[0]] + UntilDash(s[1..])
  }

  /** `explode('-', $s)[1]`: the piece after the first `-`, or none when there is no `-`. */
  function SecondPiece(s: string): (r: Option<string>)
    ensures r.None? <==> forall i :: 0 <= i < |s| ==> s[i] != '-'
  {
    if s == [] then None
    else if s[0] == '-' then Some(UntilDash(s[1..]))
    else SecondPiece(s[1..])
  }

  /** `Receipt::orderBy('id', 'desc')->first()`: the receipt with the highest id that is not trashed. */
  function LatestLive(rs: seq<Receipt>): (r: Option<Receipt>)
    ensures r.None? <==> forall i :: 0 <= i < |rs| ==> rs[i].deleted
    ensures r.Some? ==> r.value in rs && !r.value.deleted
    ensures r.Some? ==> exists k :: 0 <= k < |rs| && rs[k] == r.value && forall i :: k < i < |rs| ==> rs[i].deleted
  {
    if rs == [] then None
    else if !rs[|rs| - 1].deleted then Some(rs[|rs| - 1])
    else LatestLive(rs[..|rs| - 1])
  }

  /** `(int)explode('-', $last->numero_recibo)[1] + 1`, or 1 for an empty table. */
  function NextCounter(rs: seq<Receipt>): (r: Result<int, ReceiptError>)
  {
    match LatestLive(rs)
    case None => Ok(1)
    case Some(last) =>
      match SecondPiece(last.numeroRecibo)
      case None => Err(MalformedNumber)
      case Some(piece) => Ok(IntVal(piece) + 1)
  }

  function NextReceiptNumber(rs: seq<Receipt>): (r: Result<string, ReceiptError>)
  {
    match NextCounter(rs)
    case Err(e) => Err(e)
    case Ok(n) => Ok(FormatSerial(NumberPrefix, n, NumberWidth))
  }

  /** The digits after `REC-` are the whole second piece, so the counter reads back. */
  lemma SecondPieceOfNumber(n: nat)
    ensures SecondPiece(FormatSerial(NumberPrefix, n, NumberWidth)) == Some(PadLeft(NatToString(n), NumberWidth, '0'))
  {
    var digits := PadLeft(NatToString(n), NumberWidth, '0');
    PaddedDigitsValue(n, NumberWidth);
    assert FormatSerial(NumberPrefix, n, NumberWidth) == NumberPrefix + digits;
    PrefixBeforeDash(digits);
    SecondPieceAfterPrefix("REC", digits);
    UntilDashOfDigits(digits);
  }

  /** `REC-` is `REC` followed by the dash `explode` splits on. */
  lemma PrefixBeforeDash(rest: string)
    ensures NumberPrefix + rest == "REC" + "-" + rest
  {
    assert NumberPrefix == "REC" + "-";
  }

  lemma {:induction false} SecondPieceAfterPrefix(p: string, rest: string)
    requires forall i :: 0 <= i < |p| ==> p[i] != '-'
    ensures SecondPiece(p + "-" + rest) == Some(UntilDash(rest))
    decreases |p|
  {
    if p == [] {
      assert p + "-" + rest == "-" + rest;
      assert ("-" + rest)[1..] == rest;
    } else {
      assert (p + "-" + rest)[1..] == p[1..] + "-" + rest;
      SecondPieceAfterPrefix(p[1..], rest);
    }
  }

  lemma {:induction false} UntilDashOfDigits(s: string)
    requires AllDigits(s)
    ensures UntilDash(s) == s
    decreases |s|
  {
    if s != [] {
      assert IsDigit(s[0]);
      assert AllDigits(s[1..]);
      UntilDashOfDigits(s[1..]);
    }
  }

  /** The first receipt, or the first after every receipt was trashed, is `REC-000001`. */
  lemma NextReceiptNumberFirst(rs: seq<Receipt>)
    requires forall i :: 0 <= i < |rs| ==> rs[i].deleted
    ensures NextReceiptNumber(rs) == Ok("REC-000001")
  {
    assert NextCounter(rs) == Ok(1);
    FirstReceiptNumber();
  }

  /** After `REC-` + pad6(n) comes `REC-` + pad6(n + 1). */
  lemma NextReceiptNumberStep(rs: seq<Receipt>, n: nat)
    requires LatestLive(rs).Some? && LatestLive(rs).value.numeroRecibo == FormatSerial(NumberPrefix, n, NumberWidth)
    ensures NextReceiptNumber(rs) == Ok(FormatSerial(NumberPrefix, n + 1, NumberWidth))
  {
    NextCounterStep(rs, n);
  }

  /** The counter read back from `REC-` + pad6(n) is n + 1. */
  lemma NextCounterStep(rs: seq<Receipt>, n: nat)
    requires LatestLive(rs).Some? && LatestLive(rs).value.numeroRecibo == FormatSerial(NumberPrefix, n, NumberWidth)
    ensures NextCounter(rs) == Ok(n + 1)
  {
    CounterReadsBack(n);
    NextCounterFromPiece(rs, n);
  }

  /** The counter is the latest receipt's second piece, cast to int, plus one. */
  lemma NextCounterFromPiece(rs: seq<Receipt>, n: int)
    requires LatestLive(rs).Some? && SecondPiece(LatestLive(rs).value.numeroRecibo).Some?
    requires IntVal(SecondPiece(LatestLive(rs).value.numeroRecibo).value) == n
    ensures NextCounter(rs) == Ok(n + 1)
  {
  }

  /** Casting the second piece of `REC-` + pad6(n) to int gives n. */
  lemma CounterReadsBack(n: nat)
    ensures SecondPiece(FormatSerial(NumberPrefix, n, NumberWidth)).Some?
    ensures IntVal(SecondPiece(FormatSerial(NumberPrefix, n, NumberWidth)).value) == n
  {
    SecondPieceOfNumber(n);
    IntValOfPadded(n, NumberWidth);
  }

  lemma FirstReceiptNumber()
    ensures FormatSerial(NumberPrefix, 1, NumberWidth) == "REC-000001"
  {
    assert NatToString(1) == "1";
    assert Repeat('0', 5) == "00000";
  }

  /** The unique index on `numero_recibo` covers trashed receipts too. */
  predicate NumberTaken(rs: seq<Receipt>, number: string)
  {
    exists i :: 0 <= i < |rs| && rs[i].numeroRecibo == number
  }

  // ---------------------------------------------------------------------
  // Sums

  /** The receipt subtotal `createReceipt` computes: Σ cantidad × precio_unitario, supplied subtotals ignored. */
  function CreateSubtotal(items: seq<ItemInput>): int
  {
    Sum(Amounts(items, LineTotal))
  }

  /** `createReceipt`'s loop: Σ cantidad × precio_unitario, item by item. */
  method SumLineTotals(items: seq<ItemInput>) returns (total: int)
    ensures total == CreateSubtotal(items)
  {
    total := SumAmounts(items, LineTotal);
  }

  /** What an item adds in `updateReceipt`'s loop: its supplied subtotal when it has an id, its line total otherwise. */
  function UpdateContribution(i: ItemInput): Option<int>
  {
    if i.id.None? then Some(LineTotal(i))
    else if i.subtotal.Some? then Some(i.subtotal.value)
    else None
  }

  /** The receipt subtotal `updateReceipt` computes, or none when an item with an id has no subtotal. */
  function UpdateSubtotal(items: seq<ItemInput>): Option<int>
  {
    if items == [] then Some(0)
    else match (UpdateSubtotal(items[..|items| - 1]), UpdateContribution(items[|items| - 1]))
      case (Some(s), Some(c)) => Some(s + c)
      case _ => None
  }

  /** The loop of `updateReceipt`, summing over copies of the items. */
  method SumForUpdate(items: seq<ItemInput>) returns (r: Option<int>)
    ensures r == UpdateSubtotal(items)
  {
    var subtotal := 0;
    var i := 0;
    while i < |items|
      invariant 0 <= i <= |items|
      invariant UpdateSubtotal(items[..i]) == Some(subtotal)
    {
      assert items[..i + 1][..i] == items[..i];
      var c := UpdateContribution(items[i]);
      if c.None? {
        MissingStaysMissing(items, i + 1);
        return None;
      }
      subtotal := subtotal + c.value;
      i := i + 1;
    }
    assert items[..i] == items;
    r := Some(subtotal);
  }

  /** Once a prefix has failed, every longer prefix fails. */
  lemma {:induction false} MissingStaysMissing(items: seq<ItemInput>, k: nat)
    requires k <= |items| && UpdateSubtotal(items[..k]).None?
    ensures UpdateSubtotal(items).None?
    decreases |items| - k
  {
    if k < |items| {
      assert items[..k + 1][..k] == items[..k];
      MissingStaysMissing(items, k + 1);
    } else {
      assert items[..k] == items;
    }
  }

  /** Items without an id are summed on update exactly as on create. */
  lemma {:induction false} UpdateSubtotalOfNewItems(items: seq<ItemInput>)
    requires forall i :: 0 <= i < |items| ==> items[i].id.None?
    ensures UpdateSubtotal(items) == Some(CreateSubtotal(items))
    decreases |items|
  {
    if items != [] {
      var init := items[..|items| - 1];
      UpdateSubtotalOfNewItems(init);
      assert Amounts(items, LineTotal)[..|items| - 1] == Amounts(init, LineTotal);
    }
  }

  /** The rows `createReceipt` stores: the caller's subtotal for each item, when every item has one. */
  function CreatedItems(items: seq<ItemInput>): (r: Option<seq<StoredItem>>)
    ensures r.None? <==> exists i :: 0 <= i < |items| && items[i].subtotal.None?
    ensures r.Some? ==> |r.value| == |items|
    ensures r.Some? ==> forall i :: 0 <= i < |items| ==>
      r.value[i] == StoredItem(items[i].descripcion, items[i].cantidad, items[i].precioUnitario, items[i].subtotal.value)
  {
    if items == [] then Some([])
    else
      var init := CreatedItems(items[..|items| - 1]);
      var last := items[|items| - 1];
      if init.None? then
        assert items[..|items| - 1] <= items;
        None
      else if last.subtotal.None? then None
      else Some(init.value + [StoredItem(last.descripcion, last.cantidad, last.precioUnitario, last.subtotal.value)])
  }

  /** The rows `updateReceipt` recreates: subtotal cantidad × precio_unitario for each item. */
  function RecreatedItems(items: seq<ItemInput>): (r: seq<StoredItem>)
    ensures |r| == |items| && forall i :: 0 <= i < |items| ==> r[i].subtotal == LineTotal(items[i])
  {
    seq(|items|, i requires 0 <= i < |items| =>
      StoredItem(items[i].descripcion, items[i].cantidad, items[i].precioUnitario, LineTotal(items[i])))
  }

  function StoredSubtotal(s: StoredItem): int { s.subtotal }

  /** Σ of the stored item subtotals. */
  function StoredSum(items: seq<StoredItem>): int
  {
    Sum(Amounts(items, StoredSubtotal))
  }

  /** After an update the rows sum to Σ cantidad × precio_unitario, the subtotal create would compute. */
  lemma RecreatedSum(items: seq<ItemInput>)
    ensures StoredSum(RecreatedItems(items)) == CreateSubtotal(items)
  {
    assert Amounts(RecreatedItems(items), StoredSubtotal) == Amounts(items, LineTotal);
  }

  /** On update the receipt agrees with its rows when every item with an id supplied its line total. */
  lemma {:induction false} UpdateAgreesWhenSuppliedMatch(items: seq<ItemInput>)
    requires forall i :: 0 <= i < |items| && items[i].id.Some? ==> items[i].subtotal == Some(LineTotal(items[i]))
    ensures UpdateSubtotal(items) == Some(StoredSum(RecreatedItems(items)))
    decreases |items|
  {
    RecreatedSum(items);
    if items != [] {
      var init := items[..|items| - 1];
      UpdateAgreesWhenSuppliedMatch(init);
      RecreatedSum(init);
      assert Amounts(items, LineTotal)[..|items| - 1] == Amounts(init, LineTotal);
    }
  }

  /** One item of 2 × 5.00 sent with subtotal 0: the receipt says 10.00, the stored item 0.00. */
  lemma CreateStoresSuppliedSubtotal()
    ensures var items := [ItemInput(None, "Servicio", 2, 500, Some(0))];
            CreateSubtotal(items) == 1000 && CreatedItems(items) == Some([StoredItem("Servicio", 2, 500, 0)])
            && StoredSum(CreatedItems(items).value) == 0
  {
    var items := [ItemInput(None, "Servicio", 2, 500, Some(0))];
    assert Amounts(items, LineTotal) == [1000];
    assert Sum([1000]) == Sum([]) + 1000;
    assert items[..0] == [];
    assert CreatedItems(items[..0]) == Some([]);
    var stored := [StoredItem("Servicio", 2, 500, 0)];
    assert CreatedItems(items) == Some([] + stored);
    assert [] + stored == stored;
    assert Amounts(stored, StoredSubtotal) == [0];
    assert Sum([0]) == Sum([]) + 0;
  }

  /** An existing item of 1 × 10.00 sent with subtotal 5.00: the receipt says 5.00, the recreated item 10.00. */
  lemma UpdateStoresLineTotal()
    ensures var items := [ItemInput(Some(7), "Servicio", 1, 1000, Some(500))];
            UpdateSubtotal(items) == Some(500) && StoredSum(RecreatedItems(items)) == 1000
  {
    var items := [ItemInput(Some(7), "Servicio", 1, 1000, Some(500))];
    assert items[..0] == [];
    RecreatedSum(items);
    assert Amounts(items, LineTotal) == [1000];
    assert Sum([1000]) == Sum([]) + 1000;
  }

  // ---------------------------------------------------------------------
  // The store

  /** `isset($data['impuesto']) ? $data['impuesto'] : 0`. */
  function Impuesto(d: ReceiptData): int
  {
    if d.impuesto.Some? then d.impuesto.value else 0
  }

  /** The row `createReceipt` inserts, with its defaults. */
  function NewReceipt(id: nat, number: string, d: ReceiptData, today: int, subtotal: int): (r: Receipt)
    requires d.clientId.Some?
    ensures r.clientId == d.clientId.value
    ensures r.total == r.subtotal + r.impuesto && r.subtotal == subtotal && r.impuesto == Impuesto(d)
    ensures r.fechaRecibo == (if d.fechaRecibo.Some? then d.fechaRecibo.value else today)
    ensures r.estado == (if d.estado.Some? then d.estado.value else DefaultEstado)
    ensures r.metodoPago == (if d.metodoPago.Some? then d.metodoPago.value else DefaultMetodoPago)
    ensures !r.deleted && r.id == id && r.numeroRecibo == number
  {
    Receipt(id, d.clientId.value, number,
            if d.fechaRecibo.Some? then d.fechaRecibo.value else today,
            if d.estado.Some? then d.estado.value else DefaultEstado,
            subtotal, Impuesto(d), subtotal + Impuesto(d),
            d.referencia, d.concepto, d.observaciones,
            if d.metodoPago.Some? then d.metodoPago.value else DefaultMetodoPago,
            false)
  }

  ghost predicate ReceiptsWellFormed(rs: seq<Receipt>, nextId: nat)
  {
    && (forall i, j :: 0 <= i < j < |rs| ==> rs[i].id < rs[j].id)
    && (forall i :: 0 <= i < |rs| ==> rs[i].id < nextId)
    && (forall i, j :: 0 <= i < j < |rs| ==> rs[i].numeroRecibo != rs[j].numeroRecibo)
    && (forall i :: 0 <= i < |rs| ==> rs[i].total == rs[i].subtotal + rs[i].impuesto)
  }

  /** The position of the live receipt with id `id`. */
  function LiveIndex(rs: seq<Receipt>, id: nat): (r: Option<nat>)
    ensures r.Some? ==> r.value < |rs| && rs[r.value].id == id && !rs[r.value].deleted
    ensures r.None? ==> forall i :: 0 <= i < |rs| ==> !(rs[i].id == id && !rs[i].deleted)
  {
    if rs == [] then None
    else if rs[0].id == id && !rs[0].deleted then Some(0)
    else match LiveIndex(rs[1..], id)
      case None => None
      case Some(j) => Some(j + 1)
  }

  /** With ids increasing along the table, no live receipt has a higher id than the latest one. */
  lemma LatestLiveHighestId(rs: seq<Receipt>, nextId: nat)
    requires ReceiptsWellFormed(rs, nextId)
    ensures LatestLive(rs).Some? ==>
              forall i :: 0 <= i < |rs| && !rs[i].deleted ==> rs[i].id <= LatestLive(rs).value.id
  {
    if LatestLive(rs).Some? {
      var k :| 0 <= k < |rs| && rs[k] == LatestLive(rs).value && forall i :: k < i < |rs| ==> rs[i].deleted;
      forall i | 0 <= i < |rs| && !rs[i].deleted ensures rs[i].id <= rs[k].id {
        if i < k { assert rs[i].id < rs[k].id; }
      }
    }
  }

  lemma AppendKeepsWellFormed(rs: seq<Receipt>, nextId: nat, r: Receipt)
    requires ReceiptsWellFormed(rs, nextId) && r.id == nextId && !NumberTaken(rs, r.numeroRecibo)
    requires r.total == r.subtotal + r.impuesto
    ensures ReceiptsWellFormed(rs + [r], nextId + 1)
  {
    var rs' := rs + [r];
    forall i, j | 0 <= i < j < |rs'| ensures rs'[i].numeroRecibo != rs'[j].numeroRecibo {
      if j == |rs| { assert rs'[i] == rs[i]; }
    }
  }

  /** The receipt as `updateReceipt` rewrites it; id, number and trashed state are kept. */
  function Rewritten(rc: Receipt, d: ReceiptData, subtotal: int): (r: Receipt)
    requires d.clientId.Some? && d.estado.Some? && d.fechaRecibo.Some? && d.metodoPago.Some?
    ensures r.id == rc.id && r.numeroRecibo == rc.numeroRecibo && r.deleted == rc.deleted
    ensures r.subtotal == subtotal && r.impuesto == Impuesto(d) && r.total == subtotal + Impuesto(d)
    ensures r.fechaRecibo == d.fechaRecibo.value && r.estado == d.estado.value && r.metodoPago == d.metodoPago.value
    ensures r.clientId == d.clientId.value
  {
    rc.(clientId := d.clientId.value, fechaRecibo := d.fechaRecibo.value, estado := d.estado.value,
        subtotal := subtotal, impuesto := Impuesto(d), total := subtotal + Impuesto(d),
        referencia := d.referencia, concepto := d.concepto, observaciones := d.observaciones,
        metodoPago := d.metodoPago.value)
  }

  lemma UpdateKeepsWellFormed(rs: seq<Receipt>, nextId: nat, j: nat, d: ReceiptData, subtotal: int)
    requires ReceiptsWellFormed(rs, nextId) && j < |rs|
    requires d.clientId.Some? && d.estado.Some? && d.fechaRecibo.Some? && d.metodoPago.Some?
    ensures ReceiptsWellFormed(rs[j := Rewritten(rs[j], d, subtotal)], nextId)
    ensures rs[j].id < nextId
  {
  }

  class ReceiptBook {
    var receipts: seq<Receipt>
    var items: seq<Row<StoredItem>>
    var nextId: nat

    ghost predicate Valid()
      reads this
    {
      ReceiptsWellFormed(receipts, nextId) && OwnersBelow(items, nextId)
    }

    constructor()
      ensures Valid() && receipts == [] && items == []
    {
      receipts := [];
      items := [];
      nextId := 1;
    }

    /**
     * `ReceiptService::createReceipt`: the next number, the subtotal over
     * the items, the receipt with its defaults, then one row per item with
     * the subtotal the caller supplied; all in one transaction.
     */
    method CreateReceipt(d: ReceiptData, today: int) returns (r: Result<nat, ReceiptError>)
      requires Valid()
      modifies this
      ensures Valid()
      ensures NextReceiptNumber(old(receipts)).Err? ==> r == Err(NextReceiptNumber(old(receipts)).error) && unchanged(this)
      ensures NextReceiptNumber(old(receipts)).Ok? && d.clientId.None? ==> r == Err(MissingClient) && unchanged(this)
      ensures NextReceiptNumber(old(receipts)).Ok? && d.clientId.Some?
              && NumberTaken(old(receipts), NextReceiptNumber(old(receipts)).value) ==>
                r == Err(DuplicateNumber) && unchanged(this)
      ensures (NextReceiptNumber(old(receipts)).Ok? && d.clientId.Some?
               && !NumberTaken(old(receipts), NextReceiptNumber(old(receipts)).value)
               && CreatedItems(d.items).None?) ==> r == Err(MissingSubtotal) && unchanged(this)
      ensures (NextReceiptNumber(old(receipts)).Ok? && d.clientId.Some?
               && !NumberTaken(old(receipts), NextReceiptNumber(old(receipts)).value)
               && CreatedItems(d.items).Some?) ==> r == Ok(old(nextId))
      ensures r.Ok? ==>
        && r.value == old(nextId)
        && d.clientId.Some?
        && receipts == old(receipts) + [NewReceipt(old(nextId), NextReceiptNumber(old(receipts)).value, d, today, CreateSubtotal(d.items))]
        && CreatedItems(d.items).Some?
        && items == old(items) + RowsOf(old(nextId), CreatedItems(d.items).value)
        && ItemsOf(items, old(nextId)) == CreatedItems(d.items).value
    {
      var next := NextReceiptNumber(receipts);
      if next.Err? {
        return Err(next.error);
      }
      var number := next.value;
      var subtotal := SumLineTotals(d.items);
      if d.clientId.None? {
        return Err(MissingClient);
      }
      if NumberTaken(receipts, number) {
        return Err(DuplicateNumber);
      }
      var rows := CreatedItems(d.items);
      if rows.None? {
        return Err(MissingSubtotal);
      }
      r := Ok(nextId);
      InsertReceipt(NewReceipt(nextId, number, d, today, subtotal), rows.value);
    }

    /** `Receipt::create` followed by one `ReceiptItem::create` per item row. */
    method InsertReceipt(receipt: Receipt, rows: seq<StoredItem>)
      requires Valid() && receipt.id == nextId && !NumberTaken(receipts, receipt.numeroRecibo)
      requires receipt.total == receipt.subtotal + receipt.impuesto
      modifies this
      ensures Valid() && nextId == old(nextId) + 1
      ensures receipts == old(receipts) + [receipt] && items == old(items) + RowsOf(old(nextId), rows)
      ensures ItemsOf(items, old(nextId)) == rows
    {
      AppendKeepsWellFormed(receipts, nextId, receipt);
      AppendFreshRows(items, nextId, rows, nextId);
      receipts, items, nextId := receipts + [receipt], items + RowsOf(nextId, rows), nextId + 1;
    }

    /**
     * `ReceiptService::updateReceipt`: the subtotal over the items (supplied
     * subtotals for items with an id), the receipt rewritten, its items
     * deleted and recreated with cantidad × precio_unitario.
     */
    method UpdateReceipt(id: nat, d: ReceiptData) returns (r: Result<nat, ReceiptError>)
      requires Valid()
      modifies this
      ensures Valid()
      ensures LiveIndex(old(receipts), id).None? ==> r == Err(NotFound) && unchanged(this)
      ensures LiveIndex(old(receipts), id).Some? && UpdateSubtotal(d.items).None? ==> r == Err(MissingSubtotal) && unchanged(this)
      ensures (LiveIndex(old(receipts), id).Some? && UpdateSubtotal(d.items).Some?
               && d.clientId.None?) ==> r == Err(MissingClient) && unchanged(this)
      ensures (LiveIndex(old(receipts), id).Some? && UpdateSubtotal(d.items).Some? && d.clientId.Some?
               && (d.estado.None? || d.fechaRecibo.None? || d.metodoPago.None?)) ==> r == Err(MissingField) && unchanged(this)
      ensures (LiveIndex(old(receipts), id).Some? && UpdateSubtotal(d.items).Some? && d.clientId.Some?
               && d.estado.Some? && d.fechaRecibo.Some? && d.metodoPago.Some?) ==> r == Ok(id)
      ensures r.Ok? ==> d.clientId.Some? && d.estado.Some? && d.fechaRecibo.Some? && d.metodoPago.Some?
      ensures r.Ok? ==>
        var j := LiveIndex(old(receipts), id).value;
        var subtotal := UpdateSubtotal(d.items).value;
        && r.value == id
        && receipts == old(receipts)[j := Rewritten(old(receipts)[j], d, subtotal)]
        && items == DropOwner(old(items), id) + RowsOf(id, RecreatedItems(d.items))
        && ItemsOf(items, id) == RecreatedItems(d.items)
    {
      var found := LiveIndex(receipts, id);
      if found.None? {
        return Err(NotFound);
      }
      var j := found.value;
      var sum := SumForUpdate(d.items);
      if sum.None? {
        return Err(MissingSubtotal);
      }
      if d.clientId.None? {
        return Err(MissingClient);
      }
      if d.estado.None? || d.fechaRecibo.None? || d.metodoPago.None? {
        return Err(MissingField);
      }
      ReplaceReceipt(j, d, sum.value);
      r := Ok(id);
    }

    /** Receipt `j` rewritten from `d`, its items deleted and recreated from `d.items`. */
    method ReplaceReceipt(j: nat, d: ReceiptData, subtotal: int)
      requires Valid() && j < |receipts|
      requires d.clientId.Some? && d.estado.Some? && d.fechaRecibo.Some? && d.metodoPago.Some?
      modifies this
      ensures Valid() && nextId == old(nextId)
      ensures receipts == old(receipts)[j := Rewritten(old(receipts)[j], d, subtotal)]
      ensures items == DropOwner(old(items), old(receipts)[j].id) + RowsOf(old(receipts)[j].id, RecreatedItems(d.items))
      ensures ItemsOf(items, old(receipts)[j].id) == RecreatedItems(d.items)
    {
      var id := receipts[j].id;
      UpdateKeepsWellFormed(receipts, nextId, j, d, subtotal);
      ReplaceKeepsOwnersBelow(items, id, RecreatedItems(d.items), nextId);
      ReplaceChildren(items, id, RecreatedItems(d.items), id);
      receipts, items := receipts[j := Rewritten(receipts[j], d, subtotal)], DropOwner(items, id) + RowsOf(id, RecreatedItems(d.items));
    }

    /** `ReceiptService::deleteReceipt`: the receipt is trashed; its items stay. */
    method DeleteReceipt(id: nat) returns (r: Result<bool, ReceiptError>)
      requires Valid()
      modifies this
      ensures Valid()
      ensures LiveIndex(old(receipts), id).None? ==> r == Err(NotFound) && unchanged(this)
      ensures LiveIndex(old(receipts), id).Some? ==>
        && r == Ok(true)
        && receipts == old(receipts)[LiveIndex(old(receipts), id).value := old(receipts)[LiveIndex(old(receipts), id).value].(deleted := true)]
        && items == old(items)
    {
      var found := LiveIndex(receipts, id);
      if found.None? {
        return Err(NotFound);
      }
      receipts := receipts[found.value := receipts[found.value].(deleted := true)];
      r := Ok(true);
    }
  }
}
