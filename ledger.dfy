/**
 * The client store as the services and model hooks change it: the
 * `clients` table (soft-deleted rows included), the movement table, and
 * the client taxes and certificates. Each public method is one service
 * call run as a single transaction: on an error nothing changes, except
 * where the source itself commits before failing (DeleteMovement).
 */
module ClientLedger {
  import opened Common
  import opened Certificates
  import opened Clients
  import opened CurrentAccount

  /** "now" as the source reads it: a timestamp in seconds and the calendar date of that day. */
  datatype Clock = Clock(now: int, today: Date)

  /** `now()` stored into a `date` column: the day number of the timestamp. */
  function DayOf(clk: Clock): int
  {
    clk.now / SecondsPerDay
  }

  datatype LedgerError =
    | PendingBalance(name: string, amount: nat)   // "tiene un saldo pendiente de ..."
    | MovementsPresent(name: string)             // "tiene movimientos en su cuenta corriente"
    | NotFound                                   // findOrFail
    | IntegrityViolation                         // a unique index refuses the row
    | ClientTrashed                              // `$movement->client` is null for a trashed client

  const OpeningConcepto: string := "Apertura de cuenta corriente"
  const OpeningDetalle: string := "Cuenta corriente abierta automáticamente"

  /** The movement the observer's `created` hook inserts for a new client (its saldo 0 is restamped). */
  function OpeningInput(fecha: int): (m: MovementInput)
    ensures m.debe == 0 && m.haber == 0 && m.concepto == OpeningConcepto
  {
    MovementInput(fecha, OpeningConcepto, Some(OpeningDetalle), 0, 0, None, None)
  }

  function Abs(x: int): nat
  {
    if x < 0 then -x else x
  }

  /**
   * The guard of `deleteClient` and of the observer's `deleting` hook: a
   * non-zero cached saldo, then any movement with an amount, refuses.
   */
  function DeleteGuard(c: Client, ms: seq<Movement>): (e: Option<LedgerError>)
    ensures e.None? <==> c.saldo == 0 && !HasPendingMovements(ms, c.id)
    ensures c.saldo != 0 ==> e == Some(PendingBalance(FullName(c.attrs), Abs(c.saldo)))
  {
    if c.saldo != 0 then Some(PendingBalance(FullName(c.attrs), Abs(c.saldo)))
    else if HasPendingMovements(ms, c.id) then Some(MovementsPresent(FullName(c.attrs)))
    else None
  }

  /** A client whose movements net to zero is still refused while any of them has an amount. */
  lemma SettledButRefused(c: Client)
    requires c.id == 3 && c.saldo == 0
    ensures var ms := [Movement(1, 3, 0, "Factura", None, 10000, 0, 10000, None, None),
                       Movement(2, 3, 0, "Pago", None, 0, 10000, 0, None, None)];
            CalculateBalance(ms, 3) == 0 && DeleteGuard(c, ms) == Some(MovementsPresent(FullName(c.attrs)))
  {
    var m1 := Movement(1, 3, 0, "Factura", None, 10000, 0, 10000, None, None);
    var m2 := Movement(2, 3, 0, "Pago", None, 0, 10000, 0, None, None);
    assert [m1, m2] == [m1] + [m2];
    assert [m1] == [] + [m1];
    CalculateBalanceAppend([], m1, 3);
    CalculateBalanceAppend([m1], m2, 3);
    assert [m1, m2][0] == m1;
  }

  datatype ClientTax = ClientTax(
    id: nat,
    clientId: nat,
    taxId: nat,
    fechaActualizacion: int,   // day number
    alcuota: int,              // hundredths of a percent
    observaciones: Option<string>)

  datatype TaxData = TaxData(taxId: nat, fechaActualizacion: int, alcuota: int, observaciones: Option<string>)

  datatype CertificateData = CertificateData(tipo: CertType, numero: string, fechaVencimiento: int, alertado: bool)

  /** What `getClientBalance` returns, amounts in cents. */
  datatype BalanceInfo = BalanceInfo(
    saldoActual: int,
    totalDebe: int,
    totalHaber: int,
    ultimosMovimientos: seq<Movement>,
    cantidadMovimientos: nat)

  /** One entry of `checkExpiringCertificates`. */
  datatype ExpiringEntry = ExpiringEntry(clientId: nat, certificate: Certificate, daysRemaining: int)

  const RecentMovements: nat := 10

  /** `orderBy('fecha', 'desc')`. */
  predicate FechaDesc(a: Movement, b: Movement)
  {
    a.fecha >= b.fecha
  }

  function Min(a: nat, b: nat): nat
  {
    if a <= b then a else b
  }

  /**
   * `$client->movements()->orderBy('fecha', 'desc')->take(10)`: up to ten
   * distinct rows of the client, latest `fecha` first; every row left out
   * is no later than each row listed.
   */
  function RecentOf(ms: seq<Movement>, cid: nat): (r: seq<Movement>)
    ensures |r| == Min(RecentMovements, |OfClient(ms, cid)|)
    ensures SortedBy(r, FechaDesc)
    ensures multiset(r) <= multiset(OfClient(ms, cid))
    ensures forall m :: m in r ==> m in ms && m.clientId == cid
    ensures forall m, x :: multiset(r)[m] < multiset(OfClient(ms, cid))[m] && x in r ==> m.fecha <= x.fecha
  {
    var own := OfClient(ms, cid);
    assert TotalPreorder(FechaDesc);
    var top := TopBy(own, RecentMovements, FechaDesc);
    forall m | m in top ensures m in ms && m.clientId == cid {
      assert m in multiset(top);
      assert m in multiset(own);
      OfClientMember(ms, cid, m);
    }
    forall m, x | multiset(top)[m] < multiset(own)[m] && x in top ensures m.fecha <= x.fecha {
      assert FechaDesc(x, m);
    }
    top
  }

  /** The row findOrFail looks up through `$client->taxes()`: that id, of that client. */
  function TaxIndex(taxes: seq<ClientTax>, cid: nat, id: nat): (r: Option<nat>)
    ensures r.Some? ==> r.value < |taxes| && taxes[r.value].id == id && taxes[r.value].clientId == cid
    ensures r.None? ==> forall j :: 0 <= j < |taxes| ==> !(taxes[j].id == id && taxes[j].clientId == cid)
  {
    if taxes == [] then None
    else if taxes[0].id == id && taxes[0].clientId == cid then Some(0)
    else match TaxIndex(taxes[1..], cid, id)
      case None => None
      case Some(j) => Some(j + 1)
  }

  /** The row findOrFail looks up through `$client->certificates()`. */
  function CertificateIndex(certs: seq<Certificate>, cid: nat, id: nat): (r: Option<nat>)
    ensures r.Some? ==> r.value < |certs| && certs[r.value].id == id && certs[r.value].clientId == cid
    ensures r.None? ==> forall j :: 0 <= j < |certs| ==> !(certs[j].id == id && certs[j].clientId == cid)
  {
    if certs == [] then None
    else if certs[0].id == id && certs[0].clientId == cid then Some(0)
    else match CertificateIndex(certs[1..], cid, id)
      case None => None
      case Some(j) => Some(j + 1)
  }

  /** The unique index (client_id, tax_id, fecha_actualizacion) would refuse `t` beside row `skip`. */
  predicate TaxKeyTaken(taxes: seq<ClientTax>, t: ClientTax, skip: int)
  {
    exists j :: 0 <= j < |taxes| && j != skip && taxes[j].clientId == t.clientId
      && taxes[j].taxId == t.taxId && taxes[j].fechaActualizacion == t.fechaActualizacion
  }

  /** The unique indexes of `clients` (documento, codigo_interno) would refuse `a` for id `self`. */
  predicate ClientKeyTaken(clients: map<nat, Client>, a: ClientAttrs, self: nat)
  {
    exists id :: id in clients && id != self &&
      (clients[id].attrs.documento == a.documento
       || (a.codigoInterno.Some? && clients[id].attrs.codigoInterno == a.codigoInterno))
  }

  // ---------------------------------------------------------------------
  // The balance refresh

  /** The attributes `Client::$fillable` lists: the only keys a mass assignment writes. */
  const ClientFillable: set<string> := {
    "nombre", "apellido", "documento", "tipo_documento", "tipo_persona", "nombre_fantasia",
    "codigo_interno", "es_cliente", "es_proveedor", "categoria_fiscal", "persona_tipo_iibb",
    "nro_ingresos_brutos", "gran_contribuyente", "domicilio", "barrio", "localidad", "telefono",
    "celular", "email", "contacto", "fecha_nacimiento", "edad", "estado_civil", "genero",
    "cuenta_contable_id", "observaciones"}

  /**
   * `Client::updateBalance` as intended: row `cid` gets `calculateBalance()`
   * as its saldo, and nothing else in the table changes.
   */
  function RefreshBalance(cs: map<nat, Client>, ms: seq<Movement>, cid: nat): (cs': map<nat, Client>)
    requires cid in cs
    ensures cs'.Keys == cs.Keys
    ensures cs'[cid].saldo == CalculateBalance(ms, cid)
    ensures cs'[cid].id == cs[cid].id && cs'[cid].attrs == cs[cid].attrs && cs'[cid].deleted == cs[cid].deleted
    ensures forall id :: id in cs && id != cid ==> cs'[id] == cs[id]
  {
    cs[cid := cs[cid].(saldo := CalculateBalance(ms, cid))]
  }

  /** `$client->update(['saldo' => v])`: Eloquent writes a key only when it is fillable, and drops it silently otherwise. */
  function MassAssignSaldo(c: Client, fillable: set<string>, v: int): Client
  {
    if "saldo" in fillable then c.(saldo := v) else c
  }

  /**
   * `Client::updateBalance` as written: the refresh goes through a mass
   * assignment, and `saldo` is not fillable, so the table is left as it was.
   */
  function RefreshBalanceAsWritten(cs: map<nat, Client>, ms: seq<Movement>, cid: nat): (cs': map<nat, Client>)
    requires cid in cs
    ensures cs' == cs
  {
    cs[cid := MassAssignSaldo(cs[cid], ClientFillable, CalculateBalance(ms, cid))]
  }

  /**
   * A client's first movement, 100.00 debe. As written the cached saldo stays
   * 0: `getClientBalance` reports `saldo_actual` 0 beside `total_debe` 100.00,
   * and the delete guard reports the movements instead of the pending
   * balance. The intended refresh stores 100.00 and the guard reports it.
   */
  lemma RefreshDiscardedExample(c: Client)
    requires c.saldo == 0
    ensures var ms := [Movement(1, c.id, 0, "Factura", None, 10000, 0, 10000, None, None)];
            var cs := map[c.id := c];
            && CalculateBalance(ms, c.id) == 10000 && TotalDebe(OfClient(ms, c.id)) == 10000
            && RefreshBalanceAsWritten(cs, ms, c.id)[c.id].saldo == 0
            && DeleteGuard(RefreshBalanceAsWritten(cs, ms, c.id)[c.id], ms) == Some(MovementsPresent(FullName(c.attrs)))
            && RefreshBalance(cs, ms, c.id)[c.id].saldo == 10000
            && DeleteGuard(RefreshBalance(cs, ms, c.id)[c.id], ms) == Some(PendingBalance(FullName(c.attrs), 10000))
  {
    var m := Movement(1, c.id, 0, "Factura", None, 10000, 0, 10000, None, None);
    assert [m] == [] + [m];
    CalculateBalanceAppend([], m, c.id);
    assert OfClient([m], c.id) == [m] by { OfClientAppend([], m, c.id); }
    assert HasPendingMovements([m], c.id) by { HasPendingAppend([], m, c.id); }
  }

  // ---------------------------------------------------------------------
  // The store invariant, over plain values so that each transition has its own lemma

  /** Rows are keyed by their own id, below the table's auto-increment counter. */
  ghost predicate ClientsKeyed(cs: map<nat, Client>, nextClientId: nat)
  {
    forall id :: id in cs ==> cs[id].id == id && id < nextClientId
  }

  /** Movement ids grow with the table and every movement belongs to a stored client. */
  ghost predicate MovementsWellFormed(cs: map<nat, Client>, ms: seq<Movement>, nextMovementId: nat)
  {
    && IdsIncreasing(ms)
    && (forall i :: 0 <= i < |ms| ==> ms[i].clientId in cs && ms[i].id < nextMovementId)
  }

  /** Every cached client saldo equals Σdebe − Σhaber of its movements. */
  ghost predicate SaldoInSync(cs: map<nat, Client>, ms: seq<Movement>)
  {
    forall id {:trigger CalculateBalance(ms, id)} :: id in cs ==> cs[id].saldo == CalculateBalance(ms, id)
  }

  /** A trashed client passed the delete guard and cannot receive movements since. */
  ghost predicate TrashedSettled(cs: map<nat, Client>, ms: seq<Movement>)
  {
    forall id {:trigger HasPendingMovements(ms, id)} :: id in cs && cs[id].deleted ==> !HasPendingMovements(ms, id)
  }

  ghost predicate ChildrenWellFormed(cs: map<nat, Client>, taxes: seq<ClientTax>, nextTaxId: nat,
                                     certs: seq<Certificate>, nextCertificateId: nat)
  {
    && (forall i :: 0 <= i < |taxes| ==> taxes[i].clientId in cs && taxes[i].id < nextTaxId)
    && (forall i :: 0 <= i < |certs| ==> certs[i].clientId in cs && certs[i].id < nextCertificateId)
  }

  /** The whole store invariant. */
  ghost predicate StoreInvariant(cs: map<nat, Client>, ms: seq<Movement>, taxes: seq<ClientTax>, certs: seq<Certificate>,
                                 nextClientId: nat, nextMovementId: nat, nextTaxId: nat, nextCertificateId: nat)
  {
    && ClientsKeyed(cs, nextClientId)
    && MovementsWellFormed(cs, ms, nextMovementId)
    && SaldoInSync(cs, ms)
    && TrashedSettled(cs, ms)
    && ChildrenWellFormed(cs, taxes, nextTaxId, certs, nextCertificateId)
  }

  /** Rewriting rows in place (same keys, same ids) keeps the keying and the children's references. */
  lemma SameRowsKeepShape(cs: map<nat, Client>, cs': map<nat, Client>, ms: seq<Movement>, ms': seq<Movement>,
                          taxes: seq<ClientTax>, certs: seq<Certificate>, nc: nat, nm: nat, nt: nat, ncr: nat)
    requires ClientsKeyed(cs, nc) && ChildrenWellFormed(cs, taxes, nt, certs, ncr)
    requires cs'.Keys == cs.Keys && forall id :: id in cs ==> cs'[id].id == cs[id].id
    ensures ClientsKeyed(cs', nc) && ChildrenWellFormed(cs', taxes, nt, certs, ncr)
  {
  }

  lemma AppendKeepsSync(cs: map<nat, Client>, ms: seq<Movement>, m: Movement)
    requires SaldoInSync(cs, ms) && m.clientId in cs
    ensures SaldoInSync(RefreshBalance(cs, ms + [m], m.clientId), ms + [m])
  {
    var cs' := RefreshBalance(cs, ms + [m], m.clientId);
    forall id | id in cs' ensures cs'[id].saldo == CalculateBalance(ms + [m], id) {
      CalculateBalanceAppend(ms, m, id);
    }
  }

  lemma AppendKeepsSettled(cs: map<nat, Client>, ms: seq<Movement>, m: Movement)
    requires TrashedSettled(cs, ms) && m.clientId in cs && !cs[m.clientId].deleted
    ensures TrashedSettled(RefreshBalance(cs, ms + [m], m.clientId), ms + [m])
  {
    var cs' := RefreshBalance(cs, ms + [m], m.clientId);
    forall id | id in cs' && cs'[id].deleted ensures !HasPendingMovements(ms + [m], id) {
      HasPendingAppend(ms, m, id);
    }
  }

  lemma AppendKeepsWellFormed(cs: map<nat, Client>, cs': map<nat, Client>, ms: seq<Movement>, nm: nat, m: Movement)
    requires MovementsWellFormed(cs, ms, nm) && m.clientId in cs && m.id == nm && cs'.Keys == cs.Keys
    ensures MovementsWellFormed(cs', ms + [m], nm + 1)
  {
    var r := ms + [m];
    forall i, j | 0 <= i < j < |r| ensures r[i].id < r[j].id {
      if j == |ms| { assert r[i] == ms[i]; }
    }
  }

  /** On a stamped table the new movement continues the running balance and the table stays stamped. */
  lemma AppendKeepsStamped(cs: map<nat, Client>, ms: seq<Movement>, nm: nat, m: Movement)
    requires MovementsWellFormed(cs, ms, nm) && m.id == nm
    ensures var ms' := ms + [Stamp(ms, m)];
      Stamped(ms) ==> Stamped(ms') && ms'[|ms'| - 1].saldo == CalculateBalance(ms', m.clientId)
  {
    if Stamped(ms) {
      forall x | x in ms ensures x.id < m.id {
        var i :| 0 <= i < |ms| && ms[i] == x;
      }
      StampedAppend(ms, m);
      StampedPreviousIsBalance(ms, m.clientId);
      CalculateBalanceAppend(ms, Stamp(ms, m), m.clientId);
    }
  }

  /** Writing back the value a key already holds leaves the map as it was. */
  lemma MapUpdateSame(m: map<nat, Client>, k: nat)
    requires k in m
    ensures m[k := m[k]] == m
  {
  }

  /** The position of the movement with id `mid`, or `|ms|` when there is none. */
  method FindMovement(ms: seq<Movement>, mid: nat) returns (k: nat)
    ensures k <= |ms|
    ensures k < |ms| ==> ms[k].id == mid
    ensures k == |ms| <==> forall i :: 0 <= i < |ms| ==> ms[i].id != mid
  {
    k := 0;
    while k < |ms| && ms[k].id != mid
      invariant 0 <= k <= |ms|
      invariant forall i :: 0 <= i < k ==> ms[i].id != mid
    {
      k := k + 1;
    }
  }

  /** The client of the first movement with id `mid`, or none when no movement has it. */
  function MovementOwner(ms: seq<Movement>, mid: nat): (r: Option<nat>)
    ensures r.None? <==> forall i :: 0 <= i < |ms| ==> ms[i].id != mid
    ensures r.Some? ==> exists k :: 0 <= k < |ms| && ms[k].id == mid && ms[k].clientId == r.value
  {
    if ms == [] then None
    else if ms[0].id == mid then Some(ms[0].clientId)
    else MovementOwner(ms[1..], mid)
  }

  /** Along an increasing table, every movement with id `mid` has the owner `MovementOwner` names. */
  lemma OwnerOfStoredId(ms: seq<Movement>, k: nat)
    requires IdsIncreasing(ms) && k < |ms|
    ensures MovementOwner(ms, ms[k].id) == Some(ms[k].clientId)
  {
    var j :| 0 <= j < |ms| && ms[j].id == ms[k].id && ms[j].clientId == MovementOwner(ms, ms[k].id).value;
    IdIdentifiesMovement(ms, k);
  }

  /** Ids are unique along an increasing table. */
  lemma IdIdentifiesMovement(ms: seq<Movement>, k: nat)
    requires IdsIncreasing(ms) && k < |ms|
    ensures forall i :: 0 <= i < |ms| && ms[i].id == ms[k].id ==> ms[i].clientId == ms[k].clientId
  {
    forall i | 0 <= i < |ms| && i != k ensures ms[i].id != ms[k].id {
      if i < k { assert ms[i].id < ms[k].id; } else { assert ms[k].id < ms[i].id; }
    }
  }

  /** A new client row: fresh id, saldo 0, no movements yet. */
  lemma AddClientKeepsInvariant(cs: map<nat, Client>, ms: seq<Movement>, taxes: seq<ClientTax>, certs: seq<Certificate>,
                                nc: nat, nm: nat, nt: nat, ncr: nat, c: Client)
    requires StoreInvariant(cs, ms, taxes, certs, nc, nm, nt, ncr)
    requires c.id == nc && c.saldo == 0 && !c.deleted
    ensures StoreInvariant(cs[c.id := c], ms, taxes, certs, nc + 1, nm, nt, ncr)
    ensures forall x :: x in ms ==> x.clientId != c.id
  {
    forall x | x in ms ensures x.clientId != c.id {
      var i :| 0 <= i < |ms| && ms[i] == x;
    }
    LatestNoneIffNoMovements(ms, c.id);
  }

  /** Appending a movement of a stored, non-trashed client and refreshing its saldo. */
  lemma AppendKeepsInvariant(cs: map<nat, Client>, ms: seq<Movement>, taxes: seq<ClientTax>, certs: seq<Certificate>,
                             nc: nat, nm: nat, nt: nat, ncr: nat, m: Movement)
    requires StoreInvariant(cs, ms, taxes, certs, nc, nm, nt, ncr)
    requires m.clientId in cs && !cs[m.clientId].deleted && m.id == nm
    ensures StoreInvariant(RefreshBalance(cs, ms + [m], m.clientId),
                           ms + [m], taxes, certs, nc, nm + 1, nt, ncr)
  {
    var cs' := RefreshBalance(cs, ms + [m], m.clientId);
    SameRowsKeepShape(cs, cs', ms, ms + [m], taxes, certs, nc, nm, nt, ncr);
    AppendKeepsSync(cs, ms, m);
    AppendKeepsSettled(cs, ms, m);
    AppendKeepsWellFormed(cs, cs', ms, nm, m);
  }

  /**
   * The insert of a movement as values: the stamped row appended, the
   * client's saldo moved by debe - haber, the invariant and the stamping kept.
   */
  lemma InsertStep(cs: map<nat, Client>, ms: seq<Movement>, taxes: seq<ClientTax>, certs: seq<Certificate>,
                   nc: nat, nm: nat, nt: nat, ncr: nat, cid: nat, input: MovementInput)
    requires StoreInvariant(cs, ms, taxes, certs, nc, nm, nt, ncr) && cid in cs && !cs[cid].deleted
    ensures var m := Stamp(ms, NewMovement(nm, cid, input));
            var cs' := RefreshBalance(cs, ms + [m], cid);
            && StoreInvariant(cs', ms + [m], taxes, certs, nc, nm + 1, nt, ncr)
            && cs'[cid].saldo == cs[cid].saldo + input.debe - input.haber
            && (Stamped(ms) ==> Stamped(ms + [m]) && m.saldo == cs'[cid].saldo)
  {
    var nwm := NewMovement(nm, cid, input);
    var m := Stamp(ms, nwm);
    assert m.clientId == cid && m.id == nm && m.debe == input.debe && m.haber == input.haber;
    assert cs[cid].saldo == CalculateBalance(ms, cid);
    AppendKeepsInvariant(cs, ms, taxes, certs, nc, nm, nt, ncr, m);
    CalculateBalanceAppend(ms, m, cid);
    AppendKeepsStamped(cs, ms, nm, nwm);
  }

  lemma RemoveKeepsWellFormed(cs: map<nat, Client>, cs': map<nat, Client>, ms: seq<Movement>, nm: nat, mid: nat)
    requires MovementsWellFormed(cs, ms, nm) && cs'.Keys == cs.Keys
    ensures MovementsWellFormed(cs', RemoveId(ms, mid), nm)
  {
    var rest := RemoveId(ms, mid);
    RemoveIdKeepsOrder(ms, mid);
    forall i | 0 <= i < |rest| ensures rest[i].clientId in cs && rest[i].id < nm {
      assert rest[i] in rest;
      var k :| 0 <= k < |ms| && ms[k] == rest[i];
    }
  }

  lemma RemoveKeepsSync(cs: map<nat, Client>, ms: seq<Movement>, mid: nat, cid: nat)
    requires SaldoInSync(cs, ms) && TrashedSettled(cs, ms) && cid in cs
    requires forall i :: 0 <= i < |ms| && ms[i].id == mid ==> ms[i].clientId == cid
    ensures SaldoInSync(if cs[cid].deleted then cs
                        else RefreshBalance(cs, RemoveId(ms, mid), cid),
                        RemoveId(ms, mid))
  {
    var rest := RemoveId(ms, mid);
    forall id | id in cs && id != cid
      ensures CalculateBalance(rest, id) == CalculateBalance(ms, id)
    {
      OfClientRemoveOther(ms, mid, id);
    }
    if cs[cid].deleted {
      RemoveKeepsNotPending(ms, mid, cid);
      NotPendingBalanceZero(rest, cid);
      NotPendingBalanceZero(ms, cid);
    }
  }

  lemma RemoveKeepsSettled(cs: map<nat, Client>, cs': map<nat, Client>, ms: seq<Movement>, mid: nat)
    requires TrashedSettled(cs, ms) && cs'.Keys == cs.Keys
    requires forall id :: id in cs ==> cs'[id].deleted == cs[id].deleted
    ensures TrashedSettled(cs', RemoveId(ms, mid))
  {
    forall id | id in cs' && cs'[id].deleted
      ensures !HasPendingMovements(RemoveId(ms, mid), id)
    {
      RemoveKeepsNotPending(ms, mid, id);
    }
  }

  /**
   * Deleting movement `mid` (of client `cid`, its only row with that id):
   * every other balance is unchanged, and a trashed client's balance stays
   * 0 without a refresh.
   */
  lemma RemoveKeepsInvariant(cs: map<nat, Client>, ms: seq<Movement>, taxes: seq<ClientTax>, certs: seq<Certificate>,
                             nc: nat, nm: nat, nt: nat, ncr: nat, mid: nat, cid: nat)
    requires StoreInvariant(cs, ms, taxes, certs, nc, nm, nt, ncr)
    requires cid in cs
    requires forall i :: 0 <= i < |ms| && ms[i].id == mid ==> ms[i].clientId == cid
    ensures StoreInvariant(if cs[cid].deleted then cs
                           else RefreshBalance(cs, RemoveId(ms, mid), cid),
                           RemoveId(ms, mid), taxes, certs, nc, nm, nt, ncr)
  {
    var cs' := if cs[cid].deleted then cs else RefreshBalance(cs, RemoveId(ms, mid), cid);
    SameRowsKeepShape(cs, cs', ms, RemoveId(ms, mid), taxes, certs, nc, nm, nt, ncr);
    RemoveKeepsWellFormed(cs, cs', ms, nm, mid);
    RemoveKeepsSync(cs, ms, mid, cid);
    RemoveKeepsSettled(cs, cs', ms, mid);
  }

  class Ledger {
    var clients: map<nat, Client>
    var movements: seq<Movement>
    var taxes: seq<ClientTax>
    var certificates: seq<Certificate>
    var nextClientId: nat
    var nextMovementId: nat
    var nextTaxId: nat
    var nextCertificateId: nat

    ghost predicate Valid()
      reads this
    {
      StoreInvariant(clients, movements, taxes, certificates, nextClientId, nextMovementId, nextTaxId, nextCertificateId)
    }

    constructor()
      ensures Valid() && Stamped(movements)
      ensures clients == map[] && movements == [] && taxes == [] && certificates == []
    {
      clients := map[];
      movements := [];
      taxes := [];
      certificates := [];
      nextClientId := 1;
      nextMovementId := 1;
      nextTaxId := 1;
      nextCertificateId := 1;
    }

    // -------------------------------------------------------------------
    // Movements

    /**
     * `CurrentAccountMovement::create`: the `creating` hook stamps the
     * saldo from the client's latest movement, the `created` hook refreshes
     * the client's cached saldo.
     */
    method InsertMovement(cid: nat, input: MovementInput) returns (id: nat)
      requires Valid() && cid in clients && !clients[cid].deleted
      modifies this
      ensures Valid()
      ensures id == old(nextMovementId)
      ensures movements == old(movements) + [Stamp(old(movements), NewMovement(id, cid, input))]
      ensures clients == RefreshBalance(old(clients), movements, cid)
      ensures clients[cid].saldo == old(clients[cid].saldo) + input.debe - input.haber
      ensures old(Stamped(movements)) ==> Stamped(movements) && movements[|movements| - 1].saldo == clients[cid].saldo
      ensures taxes == old(taxes) && certificates == old(certificates) && nextClientId == old(nextClientId)
    {
      id := nextMovementId;
      var m := Stamp(movements, NewMovement(id, cid, input));
      InsertStep(clients, movements, taxes, certificates, nextClientId, nextMovementId, nextTaxId, nextCertificateId, cid, input);
      movements, clients, nextMovementId :=
        movements + [m], RefreshBalance(clients, movements + [m], cid), nextMovementId + 1;
    }

    /**
     * `ClientService::createMovement`. For a trashed client the `created`
     * hook finds no client to refresh and the transaction rolls back.
     */
    method CreateMovement(cid: nat, input: MovementInput) returns (r: Result<nat, LedgerError>)
      requires Valid() && cid in clients
      modifies this
      ensures Valid()
      ensures old(clients[cid].deleted) ==> r == Err(ClientTrashed) && unchanged(this)
      ensures !old(clients[cid].deleted) ==>
        && r == Ok(old(nextMovementId))
        && movements == old(movements) + [Stamp(old(movements), NewMovement(old(nextMovementId), cid, input))]
        && clients == RefreshBalance(old(clients), movements, cid)
        && clients[cid].saldo == old(clients[cid].saldo) + input.debe - input.haber
        && (old(Stamped(movements)) ==> Stamped(movements) && movements[|movements| - 1].saldo == clients[cid].saldo)
        && taxes == old(taxes) && certificates == old(certificates)
    {
      if clients[cid].deleted {
        return Err(ClientTrashed);
      }
      var id := InsertMovement(cid, input);
      r := Ok(id);
    }

    /**
     * Deleting a movement row, then the `deleted` hook's refresh of the
     * client's saldo. The other rows keep their stored saldo. No
     * transaction wraps it, so for a trashed client the row is gone
     * before the refresh fails.
     */
    method DeleteMovement(mid: nat) returns (r: Result<nat, LedgerError>)
      requires Valid()
      modifies this
      ensures Valid()
      ensures MovementOwner(old(movements), mid).None? ==> r == Err(NotFound) && unchanged(this)
      ensures MovementOwner(old(movements), mid).Some? ==>
                var owner := MovementOwner(old(movements), mid).value;
                && movements == RemoveId(old(movements), mid)
                && owner in old(clients)
                && if old(clients)[owner].deleted then r == Err(ClientTrashed) && clients == old(clients)
                   else r == Ok(owner) && clients == RefreshBalance(old(clients), movements, owner)
      ensures taxes == old(taxes) && certificates == old(certificates)
    {
      var k := FindMovement(movements, mid);
      if k == |movements| {
        return Err(NotFound);
      }
      OwnerOfStoredId(movements, k);
      r := RemoveMovementAt(k, mid, movements[k].clientId);
    }

    /** Removes movement `k`, with id `mid` and owner `cid`, then refreshes `cid` unless it is trashed. */
    method RemoveMovementAt(k: nat, mid: nat, cid: nat) returns (r: Result<nat, LedgerError>)
      requires Valid() && k < |movements| && movements[k].id == mid && movements[k].clientId == cid
      modifies this
      ensures Valid()
      ensures movements == RemoveId(old(movements), mid) && cid in old(clients)
      ensures old(clients)[cid].deleted ==> r == Err(ClientTrashed) && clients == old(clients)
      ensures !old(clients)[cid].deleted ==> r == Ok(cid) && clients == RefreshBalance(old(clients), movements, cid)
      ensures taxes == old(taxes) && certificates == old(certificates)
    {
      IdIdentifiesMovement(movements, k);
      RemoveKeepsInvariant(clients, movements, taxes, certificates, nextClientId, nextMovementId, nextTaxId, nextCertificateId, mid, cid);
      movements := RemoveId(movements, mid);
      if clients[cid].deleted {
        return Err(ClientTrashed);
      }
      clients := RefreshBalance(clients, movements, cid);
      r := Ok(cid);
    }

    /**
     * `ClientService::getClientBalance`: the refreshed saldo, the column
     * sums, the count, and the ten most recent movements by `fecha`.
     */
    function GetClientBalance(cid: nat): (b: BalanceInfo)
      requires cid in clients
      reads this
      ensures b.saldoActual == clients[cid].saldo
      ensures b.totalDebe == TotalDebe(OfClient(movements, cid))
      ensures b.totalHaber == TotalHaber(OfClient(movements, cid))
      ensures b.cantidadMovimientos == |OfClient(movements, cid)|
      ensures b.ultimosMovimientos == RecentOf(movements, cid)
    {
      var own := OfClient(movements, cid);
      BalanceInfo(clients[cid].saldo, TotalDebe(own), TotalHaber(own), RecentOf(movements, cid), |own|)
    }

    /** On a consistent store the reported saldo is the difference of the reported totals. */
    lemma BalanceInfoConsistent(cid: nat)
      requires Valid() && cid in clients
      ensures GetClientBalance(cid).saldoActual == GetClientBalance(cid).totalDebe - GetClientBalance(cid).totalHaber
    {
      assert clients[cid].saldo == CalculateBalance(movements, cid);
    }

    // -------------------------------------------------------------------
    // Client lifecycle

    /**
     * `ClientService::createClient`: the two `creating` hooks, the insert
     * (refused by a unique index on documento or codigo_interno), then the
     * observer's opening movement and the balance refresh it triggers.
     */
    method CreateClient(a: ClientAttrs, clk: Clock) returns (r: Result<nat, LedgerError>)
      requires Valid()
      modifies this
      ensures Valid()
      ensures var hooked := CreatingHook(CreatingHook(a, old(clients).Keys, clk.today), old(clients).Keys, clk.today);
        && (ClientKeyTaken(old(clients), hooked, old(nextClientId)) ==> r == Err(IntegrityViolation) && unchanged(this))
        && (!ClientKeyTaken(old(clients), hooked, old(nextClientId)) ==>
              && r == Ok(old(nextClientId))
              && clients == old(clients)[old(nextClientId) := Client(old(nextClientId), hooked, 0, false)]
              && movements == old(movements) + [NewMovement(old(nextMovementId), old(nextClientId), OpeningInput(DayOf(clk)))]
              && taxes == old(taxes) && certificates == old(certificates))
      ensures old(Stamped(movements)) ==> Stamped(movements)
    {
      var hooked := CreatingHook(CreatingHook(a, clients.Keys, clk.today), clients.Keys, clk.today);
      if ClientKeyTaken(clients, hooked, nextClientId) {
        return Err(IntegrityViolation);
      }
      var id := nextClientId;
      var c := Client(id, hooked, 0, false);
      var opening := NewMovement(nextMovementId, id, OpeningInput(DayOf(clk)));
      RegisterClient(c);
      OpeningLeavesZero(movements, opening);
      ghost var ms1, cs1 := movements, clients;
      assert Stamp(ms1, opening) == opening;
      assert cs1[id] == c;
      var _ := InsertMovement(id, OpeningInput(DayOf(clk)));
      assert movements == ms1 + [opening];
      assert CalculateBalance(movements, id) == 0;
      assert clients == cs1[id := c];
      MapUpdateSame(cs1, id);
      r := Ok(id);
    }

    /** The insert of a new client row with the next id, before its hooks run. */
    method RegisterClient(c: Client)
      requires Valid() && c.id == nextClientId && c.saldo == 0 && !c.deleted
      modifies this
      ensures Valid()
      ensures clients == old(clients)[c.id := c] && nextClientId == old(nextClientId) + 1
      ensures movements == old(movements) && nextMovementId == old(nextMovementId)
      ensures taxes == old(taxes) && certificates == old(certificates)
      ensures forall x :: x in movements ==> x.clientId != c.id
    {
      AddClientKeepsInvariant(clients, movements, taxes, certificates, nextClientId, nextMovementId, nextTaxId, nextCertificateId, c);
      clients := clients[c.id := c];
      nextClientId := nextClientId + 1;
    }

    /**
     * `ClientService::updateClient`: the `updating` hooks recompute edad,
     * then the row is written unless a unique index refuses it.
     */
    method UpdateClient(id: nat, a: ClientAttrs, clk: Clock) returns (r: Result<nat, LedgerError>)
      requires Valid() && id in clients
      modifies this
      ensures Valid()
      ensures var hooked := UpdatingHook(old(clients[id].attrs), UpdatingHook(old(clients[id].attrs), a, clk.today), clk.today);
        && (ClientKeyTaken(old(clients), hooked, id) ==> r == Err(IntegrityViolation) && unchanged(this))
        && (!ClientKeyTaken(old(clients), hooked, id) ==>
              r == Ok(id) && clients == old(clients)[id := old(clients[id]).(attrs := hooked)]
              && movements == old(movements) && taxes == old(taxes) && certificates == old(certificates))
    {
      var original := clients[id].attrs;
      var hooked := UpdatingHook(original, UpdatingHook(original, a, clk.today), clk.today);
      if ClientKeyTaken(clients, hooked, id) {
        return Err(IntegrityViolation);
      }
      clients := clients[id := clients[id].(attrs := hooked)];
      r := Ok(id);
    }

    /**
     * `ClientService::deleteClient` (and the observer's identical
     * `deleting` guard): refuse on a non-zero saldo, then on any movement
     * with an amount; otherwise soft-delete and return true.
     */
    method DeleteClient(id: nat) returns (r: Result<bool, LedgerError>)
      requires Valid() && id in clients
      modifies this
      ensures Valid()
      ensures DeleteGuard(old(clients[id]), old(movements)).Some? ==>
                r == Err(DeleteGuard(old(clients[id]), old(movements)).value) && unchanged(this)
      ensures DeleteGuard(old(clients[id]), old(movements)).None? ==>
                r == Ok(true) && clients == old(clients)[id := old(clients[id]).(deleted := true)]
                && movements == old(movements) && taxes == old(taxes) && certificates == old(certificates)
    {
      var g := DeleteGuard(clients[id], movements);
      if g.Some? {
        return Err(g.value);
      }
      clients := clients[id := clients[id].(deleted := true)];
      r := Ok(true);
    }

    /** `ClientService::restoreClient`: clears the soft-delete mark, unconditionally. */
    method RestoreClient(id: nat) returns (c: Client)
      requires Valid() && id in clients
      modifies this
      ensures Valid()
      ensures c == old(clients[id]).(deleted := false)
      ensures clients == old(clients)[id := c]
      ensures movements == old(movements) && taxes == old(taxes) && certificates == old(certificates)
    {
      c := clients[id].(deleted := false);
      clients := clients[id := c];
    }

    /** On a consistent store the delete guard reduces to "no movement with an amount". */
    lemma DeleteGuardIsPendingCheck(id: nat)
      requires Valid() && id in clients
      ensures DeleteGuard(clients[id], movements).None? <==> !HasPendingMovements(movements, id)
    {
      if !HasPendingMovements(movements, id) {
        NotPendingBalanceZero(movements, id);
      }
    }

    // -------------------------------------------------------------------
    // Taxes

    /** `ClientService::attachTax`: a new row unless the (client, tax, date) index refuses it. */
    method AttachTax(cid: nat, d: TaxData) returns (r: Result<nat, LedgerError>)
      requires Valid() && cid in clients
      modifies this
      ensures Valid()
      ensures var t := ClientTax(old(nextTaxId), cid, d.taxId, d.fechaActualizacion, d.alcuota, d.observaciones);
        && (TaxKeyTaken(old(taxes), t, -1) ==> r == Err(IntegrityViolation) && unchanged(this))
        && (!TaxKeyTaken(old(taxes), t, -1) ==>
              r == Ok(old(nextTaxId)) && taxes == old(taxes) + [t]
              && clients == old(clients) && movements == old(movements) && certificates == old(certificates))
    {
      var t := ClientTax(nextTaxId, cid, d.taxId, d.fechaActualizacion, d.alcuota, d.observaciones);
      if TaxKeyTaken(taxes, t, -1) {
        return Err(IntegrityViolation);
      }
      taxes := taxes + [t];
      r := Ok(nextTaxId);
      nextTaxId := nextTaxId + 1;
    }

    /** `ClientService::updateTax`: only a row of this client is found; the index may still refuse. */
    method UpdateTax(cid: nat, taxRowId: nat, d: TaxData) returns (r: Result<nat, LedgerError>)
      requires Valid() && cid in clients
      modifies this
      ensures Valid()
      ensures TaxIndex(old(taxes), cid, taxRowId).None? ==> r == Err(NotFound) && unchanged(this)
      ensures TaxIndex(old(taxes), cid, taxRowId).Some? ==>
        var j := TaxIndex(old(taxes), cid, taxRowId).value;
        var t := old(taxes)[j].(taxId := d.taxId, fechaActualizacion := d.fechaActualizacion,
                                alcuota := d.alcuota, observaciones := d.observaciones);
        && (TaxKeyTaken(old(taxes), t, j) ==> r == Err(IntegrityViolation) && unchanged(this))
        && (!TaxKeyTaken(old(taxes), t, j) ==>
              r == Ok(taxRowId) && taxes == old(taxes)[j := t]
              && clients == old(clients) && movements == old(movements) && certificates == old(certificates))
    {
      var found := TaxIndex(taxes, cid, taxRowId);
      if found.None? {
        return Err(NotFound);
      }
      var j := found.value;
      var t := taxes[j].(taxId := d.taxId, fechaActualizacion := d.fechaActualizacion,
                         alcuota := d.alcuota, observaciones := d.observaciones);
      if TaxKeyTaken(taxes, t, j) {
        return Err(IntegrityViolation);
      }
      taxes := taxes[j := t];
      r := Ok(taxRowId);
    }

    /** `ClientService::detachTax`: only a row of this client is found and deleted. */
    method DetachTax(cid: nat, taxRowId: nat) returns (r: Result<bool, LedgerError>)
      requires Valid() && cid in clients
      modifies this
      ensures Valid()
      ensures TaxIndex(old(taxes), cid, taxRowId).None? ==> r == Err(NotFound) && unchanged(this)
      ensures TaxIndex(old(taxes), cid, taxRowId).Some? ==>
        r == Ok(true) && taxes == RemoveAt(old(taxes), TaxIndex(old(taxes), cid, taxRowId).value)
        && clients == old(clients) && movements == old(movements) && certificates == old(certificates)
    {
      var found := TaxIndex(taxes, cid, taxRowId);
      if found.None? {
        return Err(NotFound);
      }
      taxes := RemoveAt(taxes, found.value);
      r := Ok(true);
    }

    // -------------------------------------------------------------------
    // Certificates

    /** `ClientService::attachCertificate`. */
    method AttachCertificate(cid: nat, d: CertificateData) returns (r: nat)
      requires Valid() && cid in clients
      modifies this
      ensures Valid()
      ensures r == old(nextCertificateId)
      ensures certificates == old(certificates)
        + [Certificate(r, cid, d.tipo, d.numero, d.fechaVencimiento, d.alertado)]
      ensures clients == old(clients) && movements == old(movements) && taxes == old(taxes)
    {
      certificates := certificates + [Certificate(nextCertificateId, cid, d.tipo, d.numero, d.fechaVencimiento, d.alertado)];
      r := nextCertificateId;
      nextCertificateId := nextCertificateId + 1;
    }

    /** `ClientService::updateCertificate`: only a certificate of this client is found. */
    method UpdateCertificate(cid: nat, certId: nat, d: CertificateData) returns (r: Result<nat, LedgerError>)
      requires Valid() && cid in clients
      modifies this
      ensures Valid()
      ensures CertificateIndex(old(certificates), cid, certId).None? ==> r == Err(NotFound) && unchanged(this)
      ensures CertificateIndex(old(certificates), cid, certId).Some? ==>
        var j := CertificateIndex(old(certificates), cid, certId).value;
        r == Ok(certId)
        && certificates == old(certificates)[j := old(certificates)[j].(tipo := d.tipo, numero := d.numero,
                             fechaVencimiento := d.fechaVencimiento, alertado := d.alertado)]
        && clients == old(clients) && movements == old(movements) && taxes == old(taxes)
    {
      var found := CertificateIndex(certificates, cid, certId);
      if found.None? {
        return Err(NotFound);
      }
      var j := found.value;
      certificates := certificates[j := certificates[j].(tipo := d.tipo, numero := d.numero,
                                   fechaVencimiento := d.fechaVencimiento, alertado := d.alertado)];
      r := Ok(certId);
    }

    /** `ClientService::deleteCertificate`: only a certificate of this client is found and deleted. */
    method DeleteCertificate(cid: nat, certId: nat) returns (r: Result<bool, LedgerError>)
      requires Valid() && cid in clients
      modifies this
      ensures Valid()
      ensures CertificateIndex(old(certificates), cid, certId).None? ==> r == Err(NotFound) && unchanged(this)
      ensures CertificateIndex(old(certificates), cid, certId).Some? ==>
        r == Ok(true) && certificates == RemoveAt(old(certificates), CertificateIndex(old(certificates), cid, certId).value)
        && clients == old(clients) && movements == old(movements) && taxes == old(taxes)
    {
      var found := CertificateIndex(certificates, cid, certId);
      if found.None? {
        return Err(NotFound);
      }
      certificates := RemoveAt(certificates, found.value);
      r := Ok(true);
    }

    /**
     * `ClientService::checkExpiringCertificates($daysAhead = 2)`: for every
     * non-trashed client, its certificates in the expiry window, each with
     * its day count.
     */
    function CheckExpiringCertificates(now: int, daysAhead: int := DefaultDaysThreshold): (r: seq<ExpiringEntry>)
      reads this
      ensures forall e :: e in r <==>
        && e.certificate in certificates
        && e.clientId == e.certificate.clientId
        && e.clientId in clients && !clients[e.clientId].deleted
        && InExpiryWindow(e.certificate, now, daysAhead)
        && e.daysRemaining == DaysUntilExpiration(e.certificate, now)
    {
      ExpiringEntries(certificates, clients, now, daysAhead)
    }
  }

  function ExpiringEntries(certs: seq<Certificate>, clients: map<nat, Client>, now: int, daysAhead: int): (r: seq<ExpiringEntry>)
    ensures forall e :: e in r <==>
      && e.certificate in certs
      && e.clientId == e.certificate.clientId
      && e.clientId in clients && !clients[e.clientId].deleted
      && InExpiryWindow(e.certificate, now, daysAhead)
      && e.daysRemaining == DaysUntilExpiration(e.certificate, now)
  {
    if certs == [] then []
    else
      var init, c := certs[..|certs| - 1], certs[|certs| - 1];
      assert certs == init + [c];
      ExpiringEntries(init, clients, now, daysAhead)
        + (if c.clientId in clients && !clients[c.clientId].deleted && InExpiryWindow(c, now, daysAhead)
           then [ExpiringEntry(c.clientId, c, DaysUntilExpiration(c, now))] else [])
  }

  /** Every reported certificate is "expiring soon" under the same threshold, with days in 0..threshold. */
  lemma ExpiringEntriesAreExpiringSoon(l: Ledger, now: int, daysAhead: int)
    ensures forall e :: e in l.CheckExpiringCertificates(now, daysAhead) ==>
      IsExpiringSoon(e.certificate, now, daysAhead) && 0 <= e.daysRemaining <= daysAhead
  {
    forall e | e in l.CheckExpiringCertificates(now, daysAhead)
      ensures IsExpiringSoon(e.certificate, now, daysAhead) && 0 <= e.daysRemaining <= daysAhead
    {
      var c := e.certificate;
      assert InExpiryWindow(c, now, daysAhead);
      assert DaysUntilExpiration(c, now) * SecondsPerDay <= ExpiresAt(c) - now;
    }
  }
}
