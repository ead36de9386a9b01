/**
 * The client current-account ledger: movements (debe/haber in cents) with
 * a running balance `saldo` stamped when each movement is created, and the
 * ledger queries the client model runs against it.
 *
 * The movement table is a sequence in insertion order; the auto-increment
 * `id` grows along it (IdsIncreasing), so "latest by id" is a property of
 * the sequence, not of the calendar date `fecha`.
 */
module CurrentAccount {
  import opened Common

  datatype Movement = Movement(
    id: nat,
    clientId: nat,
    fecha: int,                    // day number
    concepto: string,
    detalle: Option<string>,
    debe: int,                     // cents
    haber: int,                    // cents
    saldo: int,                    // cents, running balance
    documentoTipo: Option<string>,
    documentoId: Option<int>)

  /** The attributes a caller supplies for a new movement; `saldo` is not among them. */
  datatype MovementInput = MovementInput(
    fecha: int,
    concepto: string,
    detalle: Option<string>,
    debe: int,
    haber: int,
    documentoTipo: Option<string>,
    documentoId: Option<int>)

  /** The row `create($data)` starts from, before the `creating` hook stamps its saldo. */
  function NewMovement(id: nat, cid: nat, input: MovementInput): (m: Movement)
    ensures m.id == id && m.clientId == cid && m.debe == input.debe && m.haber == input.haber
  {
    Movement(id, cid, input.fecha, input.concepto, input.detalle, input.debe, input.haber, 0,
             input.documentoTipo, input.documentoId)
  }

  predicate IdsIncreasing(ms: seq<Movement>)
  {
    forall i, j :: 0 <= i < j < |ms| ==> ms[i].id < ms[j].id
  }

  /** The movements of one client, in table order (`$client->currentAccountMovements()`). */
  function OfClient(ms: seq<Movement>, cid: nat): (r: seq<Movement>)
    ensures |r| <= |ms|
  {
    if ms == [] then []
    else
      var init := ms[..|ms| - 1];
      assert ms == init + [ms[|ms| - 1]];
      OfClient(init, cid) + (if ms[|ms| - 1].clientId == cid then [ms[|ms| - 1]] else [])
  }

  lemma {:induction false} OfClientAppend(ms: seq<Movement>, m: Movement, cid: nat)
    ensures OfClient(ms + [m], cid) == OfClient(ms, cid) + (if m.clientId == cid then [m] else [])
  {
    assert (ms + [m])[..|ms|] == ms;
  }

  /** Exactly the client's movements, each one kept. */
  lemma {:induction false} OfClientMember(ms: seq<Movement>, cid: nat, m: Movement)
    ensures m in OfClient(ms, cid) <==> m in ms && m.clientId == cid
  {
    if ms != [] {
      var init, last := ms[..|ms| - 1], ms[|ms| - 1];
      assert ms == init + [last];
      OfClientMember(init, cid, m);
    }
  }

  function TotalDebe(ms: seq<Movement>): int
  {
    if ms == [] then 0 else TotalDebe(ms[..|ms| - 1]) + ms[|ms| - 1].debe
  }

  function TotalHaber(ms: seq<Movement>): int
  {
    if ms == [] then 0 else TotalHaber(ms[..|ms| - 1]) + ms[|ms| - 1].haber
  }

  /**
   * `Client::calculateBalance()`: SUM(debe) - SUM(haber) over the client's
   * movements; SQL's NULL for an empty ledger becomes 0.
   */
  function CalculateBalance(ms: seq<Movement>, cid: nat): (b: int)
    ensures OfClient(ms, cid) == [] ==> b == 0
  {
    TotalDebe(OfClient(ms, cid)) - TotalHaber(OfClient(ms, cid))
  }

  /** Appending a movement moves the client's balance by exactly its debe - haber. */
  lemma {:induction false} CalculateBalanceAppend(ms: seq<Movement>, m: Movement, cid: nat)
    ensures CalculateBalance(ms + [m], cid)
         == CalculateBalance(ms, cid) + (if m.clientId == cid then m.debe - m.haber else 0)
  {
    OfClientAppend(ms, m, cid);
    var o := OfClient(ms, cid);
    if m.clientId == cid {
      assert (o + [m])[..|o|] == o;
      assert TotalDebe(o + [m]) == TotalDebe(o) + m.debe;
      assert TotalHaber(o + [m]) == TotalHaber(o) + m.haber;
    } else {
      assert o + [] == o;
    }
  }

  /**
   * `Client::hasPendingMovements()`: some movement of the client carries a
   * non-zero debe or haber.
   */
  predicate HasPendingMovements(ms: seq<Movement>, cid: nat)
  {
    exists i :: 0 <= i < |ms| && ms[i].clientId == cid && (ms[i].debe != 0 || ms[i].haber != 0)
  }

  /** A ledger whose every movement is 0/0 is not pending, whatever its length. */
  lemma {:induction false} ZeroMovementsNotPending(ms: seq<Movement>, cid: nat)
    requires forall m :: m in OfClient(ms, cid) ==> m.debe == 0 && m.haber == 0
    ensures !HasPendingMovements(ms, cid)
  {
    forall i | 0 <= i < |ms| && ms[i].clientId == cid ensures ms[i].debe == 0 && ms[i].haber == 0 {
      OfClientMember(ms, cid, ms[i]);
    }
  }

  /** Once a movement with an amount is in the ledger, later appends never clear "pending". */
  lemma {:induction false} PendingIsPermanent(ms: seq<Movement>, extra: seq<Movement>, cid: nat)
    requires HasPendingMovements(ms, cid)
    ensures HasPendingMovements(ms + extra, cid)
  {
    var i :| 0 <= i < |ms| && ms[i].clientId == cid && (ms[i].debe != 0 || ms[i].haber != 0);
    assert (ms + extra)[i] == ms[i];
  }

  lemma HasPendingAppend(ms: seq<Movement>, m: Movement, cid: nat)
    ensures HasPendingMovements(ms + [m], cid)
        <==> HasPendingMovements(ms, cid) || (m.clientId == cid && (m.debe != 0 || m.haber != 0))
  {
    var r := ms + [m];
    if HasPendingMovements(ms, cid) {
      var i :| 0 <= i < |ms| && ms[i].clientId == cid && (ms[i].debe != 0 || ms[i].haber != 0);
      assert r[i] == ms[i];
    }
    if m.clientId == cid && (m.debe != 0 || m.haber != 0) {
      assert r[|ms|] == m;
    }
    if HasPendingMovements(r, cid) {
      var i :| 0 <= i < |r| && r[i].clientId == cid && (r[i].debe != 0 || r[i].haber != 0);
      if i < |ms| { assert ms[i] == r[i]; }
    }
  }

  /** Without pending movements the balance is 0. */
  lemma {:induction false} NotPendingBalanceZero(ms: seq<Movement>, cid: nat)
    requires !HasPendingMovements(ms, cid)
    ensures CalculateBalance(ms, cid) == 0
  {
    if ms != [] {
      var init, last := ms[..|ms| - 1], ms[|ms| - 1];
      assert ms == init + [last];
      HasPendingAppend(init, last, cid);
      CalculateBalanceAppend(init, last, cid);
      NotPendingBalanceZero(init, cid);
    }
  }

  /** The opening movement of a client sees an empty ledger and leaves the balance at 0. */
  lemma OpeningLeavesZero(ms: seq<Movement>, m: Movement)
    requires forall x :: x in ms ==> x.clientId != m.clientId
    requires m.debe == 0 && m.haber == 0
    ensures Stamp(ms, m).saldo == 0
    ensures CalculateBalance(ms + [Stamp(ms, m)], m.clientId) == 0
    ensures !HasPendingMovements(ms + [Stamp(ms, m)], m.clientId)
  {
    var cid, s := m.clientId, Stamp(ms, m);
    assert LatestOf(ms, cid).None?;
    assert !HasPendingMovements(ms, cid) by {
      forall i | 0 <= i < |ms| ensures ms[i].clientId != cid { assert ms[i] in ms; }
    }
    NotPendingBalanceZero(ms, cid);
    CalculateBalanceAppend(ms, s, cid);
    HasPendingAppend(ms, s, cid);
  }

  // ---------------------------------------------------------------------
  // The `creating` hook: stamping the running balance

  /** `latest('id')->first()` restricted to one client: the movement with the highest id. */
  function LatestOf(ms: seq<Movement>, cid: nat): (r: Option<Movement>)
    ensures r.None? <==> forall m :: m in ms ==> m.clientId != cid
    ensures r.Some? ==> r.value in ms && r.value.clientId == cid
    ensures r.Some? ==> forall m :: m in ms && m.clientId == cid ==> m.id <= r.value.id
  {
    if ms == [] then None
    else
      var init, last := ms[..|ms| - 1], ms[|ms| - 1];
      assert ms == init + [last];
      var prev := LatestOf(init, cid);
      if last.clientId != cid then prev
      else if prev.Some? && prev.value.id > last.id then prev
      else Some(last)
  }

  /** The balance the new movement continues from: the latest movement's saldo, or 0. */
  function PreviousBalance(ms: seq<Movement>, cid: nat): int
  {
    match LatestOf(ms, cid)
    case None => 0
    case Some(m) => m.saldo
  }

  /**
   * The saldo the `creating` hook writes into a new movement `m`,
   * overwriting whatever `m.saldo` held.
   */
  function StampedSaldo(ms: seq<Movement>, m: Movement): int
  {
    PreviousBalance(ms, m.clientId) + m.debe - m.haber
  }

  /** The movement as stored: `m` with its saldo stamped. */
  function Stamp(ms: seq<Movement>, m: Movement): (r: Movement)
    ensures r.saldo == StampedSaldo(ms, m)
    ensures r.(saldo := m.saldo) == m
  {
    m.(saldo := StampedSaldo(ms, m))
  }

  lemma {:induction false} LatestOfAppend(ms: seq<Movement>, m: Movement, cid: nat)
    ensures LatestOf(ms + [m], cid)
         == if m.clientId != cid then LatestOf(ms, cid)
            else if LatestOf(ms, cid).Some? && LatestOf(ms, cid).value.id > m.id then LatestOf(ms, cid)
            else Some(m)
  {
    assert (ms + [m])[..|ms|] == ms;
  }

  lemma IdsIncreasingPrefix(ms: seq<Movement>, k: nat)
    requires IdsIncreasing(ms) && k <= |ms|
    ensures IdsIncreasing(ms[..k])
  {
  }

  /** Every id below `bound` keeps the latest below `bound` too. */
  lemma LatestIdBelow(ms: seq<Movement>, cid: nat, bound: int)
    requires forall k :: 0 <= k < |ms| ==> ms[k].id < bound
    ensures LatestOf(ms, cid).Some? ==> LatestOf(ms, cid).value.id < bound
  {
    var r := LatestOf(ms, cid);
    if r.Some? {
      var k :| 0 <= k < |ms| && ms[k] == r.value;
    }
  }

  /** Increasing ids put every earlier row below the last one. */
  lemma IdsBelowLast(init: seq<Movement>, last: Movement)
    requires IdsIncreasing(init + [last])
    ensures forall k :: 0 <= k < |init| ==> init[k].id < last.id
  {
    var ms := init + [last];
    forall k | 0 <= k < |init| ensures init[k].id < last.id {
      assert ms[k] == init[k] && ms[|init|] == last;
    }
  }

  /** When the last row is the client's, it is the latest. */
  lemma LatestIsOwnLast(init: seq<Movement>, last: Movement)
    requires IdsIncreasing(init + [last])
    ensures LatestOf(init + [last], last.clientId) == Some(last)
  {
    LatestOfAppend(init, last, last.clientId);
    IdsBelowLast(init, last);
    LatestIdBelow(init, last.clientId, last.id);
  }

  /** A row of another client changes neither the latest nor the client's rows. */
  lemma LatestIsLastOther(init: seq<Movement>, last: Movement, cid: nat)
    requires last.clientId != cid && OfClient(init, cid) != []
    requires LatestOf(init, cid) == Some(OfClient(init, cid)[|OfClient(init, cid)| - 1])
    ensures OfClient(init + [last], cid) == OfClient(init, cid)
    ensures LatestOf(init + [last], cid) == LatestOf(init, cid)
  {
    OfClientAppend(init, last, cid);
    assert OfClient(init, cid) + [] == OfClient(init, cid);
    LatestOfAppend(init, last, cid);
  }

  /** The id order, not the date: with ids growing along the table the latest is the last. */
  lemma {:induction false} LatestIsLastOfClient(ms: seq<Movement>, cid: nat)
    requires IdsIncreasing(ms) && OfClient(ms, cid) != []
    ensures LatestOf(ms, cid) == Some(OfClient(ms, cid)[|OfClient(ms, cid)| - 1])
  {
    var init, last := ms[..|ms| - 1], ms[|ms| - 1];
    assert ms == init + [last];
    if last.clientId == cid {
      OfClientAppend(init, last, cid);
      LatestIsOwnLast(init, last);
    } else {
      OfClientAppend(init, last, cid);
      assert OfClient(init, cid) != [];
      IdsIncreasingPrefix(ms, |ms| - 1);
      LatestIsLastOfClient(init, cid);
      LatestIsLastOther(init, last, cid);
    }
  }

  /** Only the client's own movements are consulted. */
  lemma {:induction false} PreviousBalanceOwnLedger(ms: seq<Movement>, others: seq<Movement>, cid: nat)
    requires forall o :: o in others ==> o.clientId != cid
    ensures PreviousBalance(ms + others, cid) == PreviousBalance(ms, cid)
    decreases |others|
  {
    if others == [] {
      assert ms + others == ms;
    } else {
      var init, last := others[..|others| - 1], others[|others| - 1];
      assert others == init + [last];
      assert ms + others == (ms + init) + [last];
      assert last in others;
      LatestOfAppend(ms + init, last, cid);
      PreviousBalanceOwnLedger(ms, init, cid);
    }
  }

  /** There is no latest movement exactly when the client has no movements. */
  lemma LatestNoneIffNoMovements(ms: seq<Movement>, cid: nat)
    ensures LatestOf(ms, cid).None? <==> OfClient(ms, cid) == []
  {
    if OfClient(ms, cid) == [] {
      forall m | m in ms ensures m.clientId != cid {
        OfClientMember(ms, cid, m);
      }
    } else {
      var o := OfClient(ms, cid)[0];
      OfClientMember(ms, cid, o);
    }
  }

  /** A client's first movement continues from 0: its saldo is debe - haber. */
  lemma FirstMovementSaldo(ms: seq<Movement>, m: Movement)
    requires OfClient(ms, m.clientId) == []
    ensures Stamp(ms, m).saldo == m.debe - m.haber
  {
    LatestNoneIffNoMovements(ms, m.clientId);
  }

  /** A caller-supplied saldo has no effect on the stored movement. */
  lemma {:induction false} SuppliedSaldoIgnored(ms: seq<Movement>, m: Movement, supplied: int)
    ensures Stamp(ms, m.(saldo := supplied)) == Stamp(ms, m)
  {
  }

  // ---------------------------------------------------------------------
  // Running-balance invariant

  /**
   * Every stored saldo is the sum of debe - haber over the same client's
   * movements up to and including that one.
   */
  ghost predicate Stamped(ms: seq<Movement>)
  {
    ms == [] ||
    (Stamped(ms[..|ms| - 1]) && ms[|ms| - 1].saldo == CalculateBalance(ms, ms[|ms| - 1].clientId))
  }

  /** The recursive definition, read back as a statement about every position. */
  lemma {:induction false} StampedAt(ms: seq<Movement>, i: nat)
    requires Stamped(ms) && i < |ms|
    ensures ms[i].saldo == CalculateBalance(ms[..i + 1], ms[i].clientId)
    decreases |ms|
  {
    if i < |ms| - 1 {
      var init := ms[..|ms| - 1];
      assert init[..i + 1] == ms[..i + 1];
      StampedAt(init, i);
    } else {
      assert ms[..i + 1] == ms;
    }
  }

  /** On a stamped ledger the saldo the next movement continues from is the client's balance. */
  lemma {:induction false} StampedPreviousIsBalance(ms: seq<Movement>, cid: nat)
    requires Stamped(ms) && IdsIncreasing(ms)
    ensures PreviousBalance(ms, cid) == CalculateBalance(ms, cid)
  {
    if ms != [] {
      var init, last := ms[..|ms| - 1], ms[|ms| - 1];
      assert ms == init + [last];
      CalculateBalanceAppend(init, last, cid);
      LatestOfAppend(init, last, cid);
      if last.clientId == cid {
        OfClientAppend(init, last, cid);
        LatestIsLastOfClient(ms, cid);
      } else {
        IdsIncreasingPrefix(ms, |ms| - 1);
        StampedPreviousIsBalance(init, cid);
      }
    }
  }

  /** Appending a stamped movement with a fresh, larger id keeps the ledger stamped. */
  lemma {:induction false} StampedAppend(ms: seq<Movement>, m: Movement)
    requires Stamped(ms) && IdsIncreasing(ms)
    requires forall x :: x in ms ==> x.id < m.id
    ensures Stamped(ms + [Stamp(ms, m)]) && IdsIncreasing(ms + [Stamp(ms, m)])
  {
    var s := Stamp(ms, m);
    var r := ms + [s];
    assert r[..|r| - 1] == ms;
    assert r[|r| - 1] == s;
    StampedPreviousIsBalance(ms, m.clientId);
    CalculateBalanceAppend(ms, s, m.clientId);
    assert s.saldo == CalculateBalance(r, s.clientId);
    IdsIncreasingAppend(ms, s);
  }

  /** A movement whose id exceeds every stored id keeps the ids increasing. */
  lemma IdsIncreasingAppend(ms: seq<Movement>, m: Movement)
    requires IdsIncreasing(ms)
    requires forall x :: x in ms ==> x.id < m.id
    ensures IdsIncreasing(ms + [m])
  {
    var r := ms + [m];
    forall i, j | 0 <= i < j < |r| ensures r[i].id < r[j].id {
      if j == |ms| { assert r[i] == ms[i] && ms[i] in ms; }
      else { assert r[i] == ms[i] && r[j] == ms[j]; }
    }
  }

  /** On a stamped ledger the client's last movement carries the client's whole balance. */
  lemma {:induction false} StampedLastIsBalance(ms: seq<Movement>, cid: nat)
    requires Stamped(ms) && IdsIncreasing(ms) && OfClient(ms, cid) != []
    ensures OfClient(ms, cid)[|OfClient(ms, cid)| - 1].saldo == CalculateBalance(ms, cid)
  {
    StampedPreviousIsBalance(ms, cid);
    LatestIsLastOfClient(ms, cid);
  }

  // ---------------------------------------------------------------------
  // Deleting a movement

  /** The table after `DELETE ... WHERE id = mid`: every other row kept as it was. */
  function RemoveId(ms: seq<Movement>, mid: nat): (r: seq<Movement>)
    ensures forall m :: m in r <==> m in ms && m.id != mid
    ensures |r| <= |ms|
  {
    if ms == [] then []
    else
      var init := ms[..|ms| - 1];
      assert ms == init + [ms[|ms| - 1]];
      RemoveId(init, mid) + (if ms[|ms| - 1].id == mid then [] else [ms[|ms| - 1]])
  }

  /** Removing rows keeps every remaining id below a bound the table already respected. */
  lemma {:induction false} RemoveIdBelow(ms: seq<Movement>, mid: nat, bound: int)
    requires forall k :: 0 <= k < |ms| ==> ms[k].id < bound
    ensures forall k :: 0 <= k < |RemoveId(ms, mid)| ==> RemoveId(ms, mid)[k].id < bound
  {
    var r := RemoveId(ms, mid);
    forall k | 0 <= k < |r| ensures r[k].id < bound {
      assert r[k] in r;
      var j :| 0 <= j < |ms| && ms[j] == r[k];
    }
  }

  lemma {:induction false} RemoveIdKeepsOrder(ms: seq<Movement>, mid: nat)
    requires IdsIncreasing(ms)
    ensures IdsIncreasing(RemoveId(ms, mid))
  {
    if ms != [] {
      var init, last := ms[..|ms| - 1], ms[|ms| - 1];
      assert ms == init + [last];
      IdsIncreasingPrefix(ms, |ms| - 1);
      RemoveIdKeepsOrder(init, mid);
      var ri := RemoveId(init, mid);
      if last.id == mid {
        assert RemoveId(ms, mid) == ri + [];
        assert ri + [] == ri;
      } else {
        assert RemoveId(ms, mid) == ri + [last];
        IdsBelowLast(init, last);
        RemoveIdBelow(init, mid, last.id);
        IdsIncreasingAppendBelow(ri, last);
      }
    }
  }

  /** The index form of `IdsIncreasingAppend`. */
  lemma IdsIncreasingAppendBelow(ms: seq<Movement>, m: Movement)
    requires IdsIncreasing(ms)
    requires forall k :: 0 <= k < |ms| ==> ms[k].id < m.id
    ensures IdsIncreasing(ms + [m])
  {
    var r := ms + [m];
    forall i, j | 0 <= i < j < |r| ensures r[i].id < r[j].id {
      assert r[i] == ms[i];
      if j < |ms| { assert r[j] == ms[j]; }
    }
  }

  /** Removing a movement of another client leaves this client's ledger as it was. */
  lemma {:induction false} OfClientRemoveOther(ms: seq<Movement>, mid: nat, cid: nat)
    requires forall i :: 0 <= i < |ms| && ms[i].id == mid ==> ms[i].clientId != cid
    ensures OfClient(RemoveId(ms, mid), cid) == OfClient(ms, cid)
  {
    if ms != [] {
      var init, last := ms[..|ms| - 1], ms[|ms| - 1];
      assert ms == init + [last];
      OfClientRemoveOther(init, mid, cid);
      OfClientAppend(init, last, cid);
      if last.id == mid {
        assert RemoveId(ms, mid) == RemoveId(init, mid) + [];
        assert RemoveId(init, mid) + [] == RemoveId(init, mid);
      } else {
        assert RemoveId(ms, mid) == RemoveId(init, mid) + [last];
        OfClientAppend(RemoveId(init, mid), last, cid);
      }
    }
  }

  /** Removing movements never creates a pending one. */
  lemma RemoveKeepsNotPending(ms: seq<Movement>, mid: nat, cid: nat)
    requires !HasPendingMovements(ms, cid)
    ensures !HasPendingMovements(RemoveId(ms, mid), cid)
  {
  }

  /**
   * Deleting leaves the other movements' stored saldo as it was, so a stamped
   * ledger need not stay stamped: after deleting the first of two stamped
   * movements (say 10000, then 5000) the balance is the second's own amount
   * (5000), and the remaining row keeps its saldo (15000), so the ledger is
   * stamped again only when the deleted movement moved nothing.
   */
  lemma DeleteDoesNotRestamp(m1: Movement, m2: Movement)
    requires m1.clientId == m2.clientId && m1.id != m2.id
    requires m1.saldo == m1.debe - m1.haber
    requires m2.saldo == m1.saldo + m2.debe - m2.haber
    ensures RemoveId([m1, m2], m1.id) == [m2]
    ensures CalculateBalance(RemoveId([m1, m2], m1.id), m2.clientId) == m2.debe - m2.haber
    ensures Stamped(RemoveId([m1, m2], m1.id)) <==> m1.debe == m1.haber
  {
    var cid := m2.clientId;
    assert [m1, m2][..1] == [m1] && [m1][..0] == [] && [m2][..0] == [];
    assert RemoveId([m1], m1.id) == [];
    assert RemoveId([m1, m2], m1.id) == [m2];
    assert [m2] == [] + [m2];
    CalculateBalanceAppend([], m2, cid);
  }
}
