/**
 * The client model: the stored attributes, the internal code generator,
 * the age computed by the `creating`/`updating` hooks, the `full_name`
 * accessor, the query scopes and the certificate queries of `Client`.
 */
module Clients {
  import opened Common
  import opened Certificates

  /** A calendar date; Carbon's `age` compares (month, day) within the year. */
  datatype Date = Date(year: int, month: int, day: int)

  predicate DateLe(a: Date, b: Date)
  {
    a.year < b.year
    || (a.year == b.year && (a.month < b.month || (a.month == b.month && a.day <= b.day)))
  }

  function AddYears(d: Date, n: int): Date
  {
    d.(year := d.year + n)
  }

  /**
   * `Carbon::parse($fecha_nacimiento)->age`: completed years from the
   * birth date to today — the birthday `n` years on has been reached, the
   * one `n + 1` years on has not.
   */
  function Age(birth: Date, today: Date): (n: int)
    ensures DateLe(AddYears(birth, n), today) && !DateLe(AddYears(birth, n + 1), today)
    ensures DateLe(birth, today) ==> n >= 0
  {
    var beforeBirthday := today.month < birth.month || (today.month == birth.month && today.day < birth.day);
    today.year - birth.year - (if beforeBirthday then 1 else 0)
  }

  /** The client attributes the hooks and services read and write. */
  datatype ClientAttrs = ClientAttrs(
    nombre: string,
    apellido: string,
    documento: string,
    codigoInterno: Option<string>,
    esCliente: bool,
    esProveedor: bool,
    email: Option<string>,
    fechaNacimiento: Option<Date>,
    edad: Option<int>)

  /** A stored `clients` row; `deleted` is `deleted_at IS NOT NULL`. */
  datatype Client = Client(id: nat, attrs: ClientAttrs, saldo: int, deleted: bool)

  // ---------------------------------------------------------------------
  // Internal code

  const ClientCodePrefix: string := "CLI-"
  const ClientCodeWidth: nat := 6

  /** The id the next code is built from: highest id of any row, trashed ones included, plus one. */
  function NextClientNumber(ids: set<nat>): (n: nat)
    ensures n >= 1
    ensures forall i :: i in ids ==> i < n
    ensures ids == {} ==> n == 1
    ensures ids != {} ==> n - 1 in ids
  {
    if ids == {} then 1 else MaxOf(ids) + 1
  }

  /** `Client::generateClientCode()`. */
  function GenerateClientCode(ids: set<nat>): (code: string)
    ensures |code| >= |ClientCodePrefix| + ClientCodeWidth
    ensures code[..|ClientCodePrefix|] == ClientCodePrefix
  {
    ClientCodePrefix + PadLeft(NatToString(NextClientNumber(ids)), ClientCodeWidth, '0')
  }

  /** An empty table gives the first code. */
  lemma GenerateClientCodeEmpty()
    ensures GenerateClientCode({}) == "CLI-000001"
  {
    assert NatToString(1) == "1";
  }

  /** The digits after the prefix read back as the number the code was built from. */
  lemma GenerateClientCodeNumber(ids: set<nat>)
    ensures IntVal(GenerateClientCode(ids)[|ClientCodePrefix|..]) == NextClientNumber(ids)
  {
    var code := GenerateClientCode(ids);
    assert code[|ClientCodePrefix|..] == PadLeft(NatToString(NextClientNumber(ids)), ClientCodeWidth, '0');
    IntValOfPadded(NextClientNumber(ids), ClientCodeWidth);
  }

  /** Padding never truncates: the code is exactly 10 characters up to id 999998, longer from 999999 on. */
  lemma GenerateClientCodeLength(ids: set<nat>)
    ensures |GenerateClientCode(ids)| == |ClientCodePrefix| + ClientCodeWidth
        <==> NextClientNumber(ids) < Pow10(ClientCodeWidth)
  {
    NatToStringLength(NextClientNumber(ids), ClientCodeWidth);
  }

  /** Tables with different highest ids get different codes. */
  lemma GenerateClientCodeInjective(a: set<nat>, b: set<nat>)
    requires NextClientNumber(a) != NextClientNumber(b)
    ensures GenerateClientCode(a) != GenerateClientCode(b)
  {
    GenerateClientCodeNumber(a);
    GenerateClientCodeNumber(b);
  }

  // ---------------------------------------------------------------------
  // Hooks

  /**
   * The `creating` hook (the model's and the observer's are the same code):
   * generate `codigo_interno` when it is falsy, compute `edad` when a birth
   * date is present. `ids` are the ids already in the table.
   */
  function CreatingHook(a: ClientAttrs, ids: set<nat>, today: Date): (r: ClientAttrs)
    ensures !PhpEmpty(r.codigoInterno)
    ensures r.codigoInterno == if PhpEmpty(a.codigoInterno) then Some(GenerateClientCode(ids)) else a.codigoInterno
    ensures r.edad == if a.fechaNacimiento.Some? then Some(Age(a.fechaNacimiento.value, today)) else a.edad
    ensures r.(codigoInterno := a.codigoInterno, edad := a.edad) == a
  {
    var withCode := if PhpEmpty(a.codigoInterno) then a.(codigoInterno := Some(GenerateClientCode(ids))) else a;
    if withCode.fechaNacimiento.Some? then withCode.(edad := Some(Age(withCode.fechaNacimiento.value, today)))
    else withCode
  }

  /** Running the observer's hook after the model's own changes nothing more. */
  lemma CreatingHookIdempotent(a: ClientAttrs, ids: set<nat>, today: Date)
    ensures CreatingHook(CreatingHook(a, ids, today), ids, today) == CreatingHook(a, ids, today)
  {
  }

  /**
   * The `updating` hook: `edad` is recomputed iff `fecha_nacimiento` is
   * dirty (differs from the stored value) and not null; nothing else is
   * touched, so a changed email or documento goes through.
   */
  function UpdatingHook(original: ClientAttrs, updated: ClientAttrs, today: Date): (r: ClientAttrs)
    ensures r.(edad := updated.edad) == updated
    ensures r.edad != updated.edad ==> updated.fechaNacimiento != original.fechaNacimiento
    ensures updated.fechaNacimiento != original.fechaNacimiento && updated.fechaNacimiento.Some?
            ==> r.edad == Some(Age(updated.fechaNacimiento.value, today))
  {
    if updated.fechaNacimiento != original.fechaNacimiento && updated.fechaNacimiento.Some?
    then updated.(edad := Some(Age(updated.fechaNacimiento.value, today)))
    else updated
  }

  /** The model's and the observer's updating hooks applied in turn give the same result as one. */
  lemma UpdatingHookIdempotent(original: ClientAttrs, updated: ClientAttrs, today: Date)
    ensures UpdatingHook(original, UpdatingHook(original, updated, today), today)
         == UpdatingHook(original, updated, today)
  {
  }

  /** Clearing the birth date (or leaving it as it was) keeps the stored age. */
  lemma UpdatingHookKeepsAge(original: ClientAttrs, updated: ClientAttrs, today: Date)
    requires updated.fechaNacimiento.None? || updated.fechaNacimiento == original.fechaNacimiento
    ensures UpdatingHook(original, updated, today) == updated
  {
  }

  // ---------------------------------------------------------------------
  // full_name

  /** `full_name`: `trim("{$nombre} {$apellido}")`. */
  function FullName(a: ClientAttrs): (name: string)
    ensures name == [] || (!IsTrimChar(name[0]) && !IsTrimChar(name[|name| - 1]))
    ensures Contains(a.nombre + " " + a.apellido, name)
  {
    Trim(a.nombre + " " + a.apellido)
  }

  /** Names without surrounding blanks are joined by exactly one space. */
  lemma FullNameJoins(a: ClientAttrs)
    requires a.nombre != [] && !IsTrimChar(a.nombre[0])
    requires a.apellido != [] && !IsTrimChar(a.apellido[|a.apellido| - 1])
    ensures FullName(a) == a.nombre + " " + a.apellido
  {
    TrimNoOp(a.nombre + " " + a.apellido);
  }

  /** An empty apellido leaves no trailing space. */
  lemma {:induction false} FullNameWithoutApellido(a: ClientAttrs)
    requires a.apellido == [] && a.nombre != [] && !IsTrimChar(a.nombre[0])
    requires !IsTrimChar(a.nombre[|a.nombre| - 1])
    ensures FullName(a) == a.nombre
  {
    var s := a.nombre + " ";
    assert a.nombre + " " + a.apellido == s;
    assert s[0] == a.nombre[0];
    assert TrimLeft(s) == s;
    assert s[..|s| - 1] == a.nombre;
    assert IsTrimChar(s[|s| - 1]);
    assert TrimRight(s) == TrimRight(a.nombre);
    assert TrimRight(a.nombre) == a.nombre;
  }

  // ---------------------------------------------------------------------
  // Scopes and searches

  /** `scopeSearch`: a `LIKE '%term%'` match on nombre, apellido, documento or codigo_interno. */
  predicate SearchMatches(a: ClientAttrs, term: string)
  {
    || Contains(a.nombre, term)
    || Contains(a.apellido, term)
    || Contains(a.documento, term)
    || (a.codigoInterno.Some? && Contains(a.codigoInterno.value, term))
  }

  /**
   * `ClientService::searchClients`: the ids of the non-trashed clients, with
   * the search scope applied when the search string is truthy.
   */
  function SearchClients(clients: map<nat, Client>, search: Option<string>): (r: set<nat>)
    ensures forall id :: id in r ==> id in clients && !clients[id].deleted
    ensures !PhpEmpty(search) ==> forall id :: id in r ==> SearchMatches(clients[id].attrs, search.value)
    ensures PhpEmpty(search) ==> forall id :: id in clients && !clients[id].deleted ==> id in r
    ensures !PhpEmpty(search) ==> forall id :: id in clients && !clients[id].deleted ==>
              (SearchMatches(clients[id].attrs, search.value) ==> id in r)
  {
    set id | id in clients && !clients[id].deleted
      && (PhpEmpty(search) || SearchMatches(clients[id].attrs, search.value))
  }

  /** A search only narrows the unfiltered listing, and the empty term matches every client. */
  lemma SearchNarrows(clients: map<nat, Client>, term: string)
    ensures SearchClients(clients, Some(term)) <= SearchClients(clients, None)
    ensures SearchClients(clients, Some("")) == SearchClients(clients, None)
  {
    forall id | id in SearchClients(clients, None)
      ensures SearchMatches(clients[id].attrs, "")
    {
      assert OccursAt(clients[id].attrs.nombre, "", 0);
    }
  }

  /** A falsy search string (absent, `""` or `"0"`) filters nothing: searching for "0" lists every client. */
  lemma FalsySearchListsAll(clients: map<nat, Client>, search: Option<string>)
    requires PhpEmpty(search)
    ensures SearchClients(clients, search) == SearchClients(clients, None)
    ensures SearchClients(clients, Some("0")) == SearchClients(clients, None)
  {
  }

  /** A live client is found by searching for its own documento or its own internal code. */
  lemma SearchFindsOwnKeys(clients: map<nat, Client>, id: nat)
    requires id in clients && !clients[id].deleted
    requires clients[id].attrs.documento != "" && clients[id].attrs.documento != "0"
    ensures id in SearchClients(clients, Some(clients[id].attrs.documento))
    ensures clients[id].attrs.codigoInterno.Some? && !PhpEmpty(clients[id].attrs.codigoInterno) ==>
              id in SearchClients(clients, clients[id].attrs.codigoInterno)
  {
    var a := clients[id].attrs;
    assert OccursAt(a.documento, a.documento, 0) by { assert a.documento[0..|a.documento|] == a.documento; }
    if a.codigoInterno.Some? && !PhpEmpty(a.codigoInterno) {
      var code := a.codigoInterno.value;
      assert OccursAt(code, code, 0) by { assert code[0..|code|] == code; }
      assert SearchMatches(a, code);
    }
  }

  /** `ClientService::getClients`: the part of the unfiltered listing flagged `es_cliente`. */
  function GetClients(clients: map<nat, Client>): (r: set<nat>)
    ensures r == set id | id in SearchClients(clients, None) && clients[id].attrs.esCliente
  {
    set id | id in clients && !clients[id].deleted && clients[id].attrs.esCliente
  }

  /** `ClientService::getProviders`: the part of the unfiltered listing flagged `es_proveedor`. */
  function GetProviders(clients: map<nat, Client>): (r: set<nat>)
    ensures r == set id | id in SearchClients(clients, None) && clients[id].attrs.esProveedor
  {
    set id | id in clients && !clients[id].deleted && clients[id].attrs.esProveedor
  }

  /** Clients and providers are both drawn from the live rows; a trashed row is in neither listing. */
  lemma ListingsWithinAll(clients: map<nat, Client>, id: nat)
    ensures GetClients(clients) + GetProviders(clients) <= SearchClients(clients, None)
    ensures id in clients && clients[id].deleted ==> id !in GetClients(clients) + GetProviders(clients)
  {
  }

  /** The two flags are independent: a row may be listed both as client and as provider. */
  lemma ClientsAndProvidersOverlap(clients: map<nat, Client>, id: nat)
    requires id in clients && !clients[id].deleted
    requires clients[id].attrs.esCliente && clients[id].attrs.esProveedor
    ensures id in GetClients(clients) * GetProviders(clients)
  {
  }

  // ---------------------------------------------------------------------
  // Certificates of a client

  /** `hasActiveCertificate($tipo)`: some certificate of the client of that type is vigente. */
  predicate HasActiveCertificate(certs: seq<Certificate>, cid: nat, tipo: CertType, now: int)
  {
    exists i :: 0 <= i < |certs| && certs[i].clientId == cid && certs[i].tipo == tipo && Vigente(certs[i], now)
  }

  /** The query window of `getExpiringCertificates`: now <= expiry <= now + daysAhead days. */
  predicate InExpiryWindow(c: Certificate, now: int, daysAhead: int)
  {
    now <= ExpiresAt(c) <= now + daysAhead * SecondsPerDay
  }

  /** `getExpiringCertificates($daysAhead = 2)`: the client's certificates inside the window. */
  function GetExpiringCertificates(certs: seq<Certificate>, cid: nat, now: int,
                                   daysAhead: int := DefaultDaysThreshold): (r: seq<Certificate>)
    ensures forall c :: c in r <==> c in certs && c.clientId == cid && InExpiryWindow(c, now, daysAhead)
  {
    if certs == [] then []
    else
      var init, last := certs[..|certs| - 1], certs[|certs| - 1];
      assert certs == init + [last];
      GetExpiringCertificates(init, cid, now, daysAhead)
        + (if last.clientId == cid && InExpiryWindow(last, now, daysAhead) then [last] else [])
  }

  /** Every certificate the query returns is vigente and "expiring soon" under the same threshold. */
  lemma ExpiringCertificatesAreExpiringSoon(certs: seq<Certificate>, cid: nat, now: int, daysAhead: int)
    ensures forall c :: c in GetExpiringCertificates(certs, cid, now, daysAhead) ==>
              Vigente(c, now) && IsExpiringSoon(c, now, daysAhead)
  {
    forall c | c in GetExpiringCertificates(certs, cid, now, daysAhead)
      ensures Vigente(c, now) && IsExpiringSoon(c, now, daysAhead)
    {
      var x := ExpiresAt(c) - now;
      assert 0 <= x <= daysAhead * SecondsPerDay;
      assert DaysUntilExpiration(c, now) * SecondsPerDay <= x;
    }
  }

  /** At midnight the query window and `isExpiringSoon` agree exactly. */
  lemma ExpiryWindowAtMidnight(c: Certificate, today: int, daysAhead: int)
    ensures InExpiryWindow(c, today * SecondsPerDay, daysAhead)
        <==> IsExpiringSoon(c, today * SecondsPerDay, daysAhead)
  {
    DaysUntilExpirationAtMidnight(c, today);
    var d := c.fechaVencimiento - today;
    assert ExpiresAt(c) - today * SecondsPerDay == d * SecondsPerDay;
    assert (d <= daysAhead) <==> (d * SecondsPerDay <= daysAhead * SecondsPerDay);
  }

  /**
   * A certificate the expiry query returns is vigente, so the client has an
   * active certificate of its type; with none of that type vigente, the
   * query returns none of that type.
   */
  lemma ExpiringImpliesActive(certs: seq<Certificate>, cid: nat, now: int, daysAhead: int, c: Certificate)
    requires c in GetExpiringCertificates(certs, cid, now, daysAhead)
    ensures HasActiveCertificate(certs, cid, c.tipo, now)
  {
    var i :| 0 <= i < |certs| && certs[i] == c;
    assert certs[i].clientId == cid && Vigente(certs[i], now);
  }
}
