/**
 * Bank entities and bank accounts: the read queries with their optional
 * filters and ordering, the status toggles, the balance adjustment, and
 * the guard that keeps an entity with accounts from being deleted.
 *
 * Balances are integer cents. Searches are `LIKE '%term%'`, read as plain
 * substring containment.
 */
module Banks {
  import opened Common

  datatype BankEntity = BankEntity(
    id: nat,
    nombre: string,
    codigoBcra: Option<string>,
    cuit: Option<string>,
    activo: bool)

  datatype BankAccount = BankAccount(
    id: nat,
    bankEntityId: nat,
    numeroCuenta: string,
    cbu: string,
    alias: Option<string>,
    tipoCuenta: string,
    moneda: string,
    saldoActual: int,
    activa: bool)

  datatype BankError =
    | HasAccounts   // 'No se puede eliminar una entidad bancaria con cuentas asociadas'
    | NotFound

  /** The elements of `s` that satisfy `p`, in order (a `WHERE`). */
  function Where<T(!new)>(s: seq<T>, p: T -> bool): (r: seq<T>)
    ensures |r| <= |s|
    ensures forall i :: 0 <= i < |r| ==> p(r[i])
    ensures forall x :: x in r <==> x in s && p(x)
  {
    if s == [] then []
    else Where(s[..|s| - 1], p) + (if p(s[|s| - 1]) then [s[|s| - 1]] else [])
  }

  /** The search of a nullable column matches only when it holds a value. */
  predicate ColumnContains(column: Option<string>, term: string)
  {
    column.Some? && Contains(column.value, term)
  }

  // ---------------------------------------------------------------------
  // Bank entities: getAll and getAllPaginated

  datatype EntityFilters = EntityFilters(search: Option<string>, activo: Option<bool>)

  /** `BankEntity::scopeSearch`: nombre, codigo_bcra or cuit contains the term. */
  predicate EntitySearch(e: BankEntity, term: string)
  {
    Contains(e.nombre, term) || ColumnContains(e.codigoBcra, term) || ColumnContains(e.cuit, term)
  }

  /** The search applies only when not `empty`, the `activo` filter only when set. */
  predicate EntityPasses(f: EntityFilters, e: BankEntity)
  {
    (PhpEmpty(f.search) || EntitySearch(e, f.search.value))
    && (f.activo.None? || e.activo == f.activo.value)
  }

  /**
   * `ORDER BY nombre` under the database's collation `coll`, a parameter of
   * every listing: the column's collation decides how names compare.
   */
  function ByNombre(coll: (string, string) -> bool): (BankEntity, BankEntity) -> bool
  {
    (a: BankEntity, b: BankEntity) => coll(a.nombre, b.nombre)
  }

  /** A collation that is a total preorder orders the entities by a total preorder. */
  lemma ByNombreTotalPreorder(coll: (string, string) -> bool)
    requires TotalPreorder(coll)
    ensures TotalPreorder(ByNombre(coll))
  {
    forall a: BankEntity, b: BankEntity ensures ByNombre(coll)(a, b) || ByNombre(coll)(b, a) {
      assert coll(a.nombre, b.nombre) || coll(b.nombre, a.nombre);
    }
    forall a: BankEntity, b: BankEntity, c: BankEntity | ByNombre(coll)(a, b) && ByNombre(coll)(b, c)
      ensures ByNombre(coll)(a, c)
    {
      assert coll(a.nombre, b.nombre) && coll(b.nombre, c.nombre);
    }
  }

  /** Comparison by code points, one collation the listings may run under, is a total preorder. */
  lemma CodePointCollation()
    ensures TotalPreorder(StrLe)
  {
    forall a, b ensures StrLe(a, b) || StrLe(b, a) {
      StrLeTotal(a, b);
    }
    forall a, b, c | StrLe(a, b) && StrLe(b, c) ensures StrLe(a, c) {
      StrLeTransitive(a, b, c);
    }
  }

  /** `BankEntityService::getAllPaginated` before pagination: the filtered entities by nombre. */
  function EntitiesWithFilters(es: seq<BankEntity>, f: EntityFilters, coll: (string, string) -> bool): (r: seq<BankEntity>)
    ensures multiset(r) == multiset(Where(es, e => EntityPasses(f, e)))
  {
    SortBy(Where(es, e => EntityPasses(f, e)), ByNombre(coll))
  }

  /** The paginated listing holds exactly the entities that pass the filters, ordered by nombre. */
  lemma EntitiesWithFiltersSpec(es: seq<BankEntity>, f: EntityFilters, coll: (string, string) -> bool)
    requires TotalPreorder(coll)
    ensures SortedBy(EntitiesWithFilters(es, f, coll), ByNombre(coll))
    ensures forall e :: e in EntitiesWithFilters(es, f, coll) <==> e in es && EntityPasses(f, e)
  {
    ByNombreTotalPreorder(coll);
    SortBySorted(Where(es, e => EntityPasses(f, e)), ByNombre(coll));
    var w := Where(es, e => EntityPasses(f, e));
    forall e ensures e in EntitiesWithFilters(es, f, coll) <==> e in w {
      assert e in multiset(EntitiesWithFilters(es, f, coll)) <==> e in multiset(w);
    }
  }

  /** An absent or empty search and an unset `activo` list every entity. */
  lemma EntityFiltersOptional(e: BankEntity)
    ensures EntityPasses(EntityFilters(None, None), e)
    ensures EntityPasses(EntityFilters(Some(""), None), e) && EntityPasses(EntityFilters(Some("0"), None), e)
  {
  }

  /** `BankEntity::scopeActive`. */
  predicate IsActiveEntity(e: BankEntity) { e.activo }

  /** `BankEntityService::getAll`: the active entities by nombre. */
  function ActiveEntities(es: seq<BankEntity>, coll: (string, string) -> bool): (r: seq<BankEntity>)
  {
    SortBy(Where(es, IsActiveEntity), ByNombre(coll))
  }

  /** `getAll` is what `getAllPaginated` returns for `activo = true`. */
  lemma ActiveEntitiesSpec(es: seq<BankEntity>, coll: (string, string) -> bool)
    requires TotalPreorder(coll)
    ensures SortedBy(ActiveEntities(es, coll), ByNombre(coll))
    ensures forall e :: e in ActiveEntities(es, coll) <==> e in es && e.activo
    ensures multiset(ActiveEntities(es, coll)) == multiset(EntitiesWithFilters(es, EntityFilters(None, Some(true)), coll))
  {
    ByNombreTotalPreorder(coll);
    SortBySorted(Where(es, IsActiveEntity), ByNombre(coll));
    var w := Where(es, IsActiveEntity);
    forall e ensures e in ActiveEntities(es, coll) <==> e in w {
      assert e in multiset(ActiveEntities(es, coll)) <==> e in multiset(w);
    }
    SameWhere(es, IsActiveEntity, e => EntityPasses(EntityFilters(None, Some(true)), e));
  }

  lemma {:induction false} SameWhere<T(!new)>(s: seq<T>, p: T -> bool, q: T -> bool)
    requires forall x :: p(x) == q(x)
    ensures Where(s, p) == Where(s, q)
    decreases |s|
  {
    if s != [] {
      SameWhere(s[..|s| - 1], p, q);
    }
  }

  // ---------------------------------------------------------------------
  // Bank accounts: getAll and getAllPaginated

  datatype AccountFilters = AccountFilters(
    search: Option<string>,
    tipoCuenta: Option<string>,
    moneda: Option<string>,
    activa: Option<bool>,
    bankEntityId: Option<nat>)

  /** `BankAccount::scopeSearch`: numero_cuenta, cbu or alias contains the term, or the entity's nombre does. */
  predicate AccountSearch(es: seq<BankEntity>, a: BankAccount, term: string)
  {
    Contains(a.numeroCuenta, term) || Contains(a.cbu, term) || ColumnContains(a.alias, term)
    || exists i :: 0 <= i < |es| && es[i].id == a.bankEntityId && Contains(es[i].nombre, term)
  }

  /** Every filter is optional; an entity id of 0 is `empty` and filters nothing. */
  predicate AccountPasses(es: seq<BankEntity>, f: AccountFilters, a: BankAccount)
  {
    && (PhpEmpty(f.search) || AccountSearch(es, a, f.search.value))
    && (PhpEmpty(f.tipoCuenta) || a.tipoCuenta == f.tipoCuenta.value)
    && (PhpEmpty(f.moneda) || a.moneda == f.moneda.value)
    && (f.activa.None? || a.activa == f.activa.value)
    && (f.bankEntityId.None? || f.bankEntityId.value == 0 || a.bankEntityId == f.bankEntityId.value)
  }

  /** `ORDER BY numero_cuenta` under the collation `coll`. */
  function ByNumero(coll: (string, string) -> bool): (BankAccount, BankAccount) -> bool
  {
    (a: BankAccount, b: BankAccount) => coll(a.numeroCuenta, b.numeroCuenta)
  }

  lemma ByNumeroTotalPreorder(coll: (string, string) -> bool)
    requires TotalPreorder(coll)
    ensures TotalPreorder(ByNumero(coll))
  {
    forall a: BankAccount, b: BankAccount ensures ByNumero(coll)(a, b) || ByNumero(coll)(b, a) {
      assert coll(a.numeroCuenta, b.numeroCuenta) || coll(b.numeroCuenta, a.numeroCuenta);
    }
    forall a: BankAccount, b: BankAccount, c: BankAccount | ByNumero(coll)(a, b) && ByNumero(coll)(b, c)
      ensures ByNumero(coll)(a, c)
    {
      assert coll(a.numeroCuenta, b.numeroCuenta) && coll(b.numeroCuenta, c.numeroCuenta);
    }
  }

  /** `BankAccountService::getAllPaginated` before pagination: the filtered accounts by numero_cuenta. */
  function AccountsWithFilters(es: seq<BankEntity>, accts: seq<BankAccount>, f: AccountFilters, coll: (string, string) -> bool): (r: seq<BankAccount>)
    ensures multiset(r) == multiset(Where(accts, a => AccountPasses(es, f, a)))
  {
    SortBy(Where(accts, a => AccountPasses(es, f, a)), ByNumero(coll))
  }

  lemma AccountsWithFiltersSpec(es: seq<BankEntity>, accts: seq<BankAccount>, f: AccountFilters, coll: (string, string) -> bool)
    requires TotalPreorder(coll)
    ensures SortedBy(AccountsWithFilters(es, accts, f, coll), ByNumero(coll))
    ensures forall a :: a in AccountsWithFilters(es, accts, f, coll) <==> a in accts && AccountPasses(es, f, a)
  {
    ByNumeroTotalPreorder(coll);
    var w := Where(accts, a => AccountPasses(es, f, a));
    SortBySorted(w, ByNumero(coll));
    forall a ensures a in AccountsWithFilters(es, accts, f, coll) <==> a in w {
      assert a in multiset(AccountsWithFilters(es, accts, f, coll)) <==> a in multiset(w);
    }
  }

  /** The account filters are a conjunction: adding the currency filter keeps exactly the listed accounts in that currency. */
  lemma AccountFiltersNarrow(es: seq<BankEntity>, accts: seq<BankAccount>, f: AccountFilters, moneda: string, coll: (string, string) -> bool)
    requires TotalPreorder(coll) && PhpEmpty(f.moneda) && moneda != "" && moneda != "0"
    ensures forall a :: a in AccountsWithFilters(es, accts, f.(moneda := Some(moneda)), coll) <==>
              a in AccountsWithFilters(es, accts, f, coll) && a.moneda == moneda
  {
    var g := f.(moneda := Some(moneda));
    AccountsWithFiltersSpec(es, accts, f, coll);
    AccountsWithFiltersSpec(es, accts, g, coll);
    forall a ensures a in AccountsWithFilters(es, accts, g, coll) <==> a in AccountsWithFilters(es, accts, f, coll) && a.moneda == moneda {
      assert a in AccountsWithFilters(es, accts, g, coll) <==> a in accts && AccountPasses(es, g, a);
      assert a in AccountsWithFilters(es, accts, f, coll) <==> a in accts && AccountPasses(es, f, a);
      MonedaFilter(es, f, a, moneda);
    }
  }

  lemma MonedaFilter(es: seq<BankEntity>, f: AccountFilters, a: BankAccount, moneda: string)
    requires PhpEmpty(f.moneda) && moneda != "" && moneda != "0"
    ensures AccountPasses(es, f.(moneda := Some(moneda)), a) <==> AccountPasses(es, f, a) && a.moneda == moneda
  {
  }

  /** `BankAccount::scopeActive`. */
  predicate IsActiveAccount(a: BankAccount) { a.activa }

  /** `BankAccountService::getAll`: the active accounts by numero_cuenta. */
  function ActiveAccounts(accts: seq<BankAccount>, coll: (string, string) -> bool): (r: seq<BankAccount>)
  {
    SortBy(Where(accts, IsActiveAccount), ByNumero(coll))
  }

  lemma ActiveAccountsSpec(es: seq<BankEntity>, accts: seq<BankAccount>, coll: (string, string) -> bool)
    requires TotalPreorder(coll)
    ensures SortedBy(ActiveAccounts(accts, coll), ByNumero(coll))
    ensures forall a :: a in ActiveAccounts(accts, coll) <==> a in accts && a.activa
    ensures multiset(ActiveAccounts(accts, coll)) == multiset(AccountsWithFilters(es, accts, AccountFilters(None, None, None, Some(true), None), coll))
  {
    ByNumeroTotalPreorder(coll);
    var w := Where(accts, IsActiveAccount);
    SortBySorted(w, ByNumero(coll));
    forall a ensures a in ActiveAccounts(accts, coll) <==> a in w {
      assert a in multiset(ActiveAccounts(accts, coll)) <==> a in multiset(w);
    }
    SameWhere(accts, IsActiveAccount, a => AccountPasses(es, AccountFilters(None, None, None, Some(true), None), a));
  }

  // ---------------------------------------------------------------------
  // Changes

  /** The position of the entity with id `id`. */
  function EntityIndex(es: seq<BankEntity>, id: nat): (r: Option<nat>)
    ensures r.Some? ==> r.value < |es| && es[r.value].id == id
    ensures r.None? ==> forall i :: 0 <= i < |es| ==> es[i].id != id
  {
    if es == [] then None
    else if es[0].id == id then Some(0)
    else match EntityIndex(es[1..], id)
      case None => None
      case Some(j) => Some(j + 1)
  }

  function AccountIndex(accts: seq<BankAccount>, id: nat): (r: Option<nat>)
    ensures r.Some? ==> r.value < |accts| && accts[r.value].id == id
    ensures r.None? ==> forall i :: 0 <= i < |accts| ==> accts[i].id != id
  {
    if accts == [] then None
    else if accts[0].id == id then Some(0)
    else match AccountIndex(accts[1..], id)
      case None => None
      case Some(j) => Some(j + 1)
  }

  /** `$bankEntity->accounts()->count() > 0`. */
  predicate HasAccountsOf(accts: seq<BankAccount>, entityId: nat)
  {
    exists i :: 0 <= i < |accts| && accts[i].bankEntityId == entityId
  }

  predicate HasEntity(es: seq<BankEntity>, id: nat)
  {
    exists k :: 0 <= k < |es| && es[k].id == id
  }

  /** Every account names a stored entity (the foreign key on bank_entity_id). */
  ghost predicate AccountsReferenceEntities(es: seq<BankEntity>, accts: seq<BankAccount>)
  {
    forall i :: 0 <= i < |accts| ==> HasEntity(es, accts[i].bankEntityId)
  }

  /** Removing an entity no account names keeps every reference intact. */
  lemma RemoveUnreferencedEntity(es: seq<BankEntity>, accts: seq<BankAccount>, j: nat)
    requires AccountsReferenceEntities(es, accts) && j < |es| && !HasAccountsOf(accts, es[j].id)
    ensures AccountsReferenceEntities(RemoveAt(es, j), accts)
  {
    var es' := RemoveAt(es, j);
    forall i | 0 <= i < |accts| ensures HasEntity(es', accts[i].bankEntityId) {
      var k :| 0 <= k < |es| && es[k].id == accts[i].bankEntityId;
      assert k != j;
      if k < j {
        assert es'[k] == es[k];
      } else {
        assert es'[k - 1] == es[k];
      }
    }
  }

  /** The same entities with one of them switched on or off: ids kept, so references stay valid. */
  lemma ChangedEntityKeepsReferences(es: seq<BankEntity>, accts: seq<BankAccount>, j: nat, e: BankEntity)
    requires AccountsReferenceEntities(es, accts) && j < |es| && e.id == es[j].id
    ensures AccountsReferenceEntities(es[j := e], accts)
  {
    var es' := es[j := e];
    forall i | 0 <= i < |accts| ensures HasEntity(es', accts[i].bankEntityId) {
      var k :| 0 <= k < |es| && es[k].id == accts[i].bankEntityId;
      assert es'[k].id == es[k].id;
    }
  }

  lemma ChangedAccountKeepsReferences(es: seq<BankEntity>, accts: seq<BankAccount>, j: nat, a: BankAccount)
    requires AccountsReferenceEntities(es, accts) && j < |accts| && a.bankEntityId == accts[j].bankEntityId
    ensures AccountsReferenceEntities(es, accts[j := a])
  {
    var as' := accts[j := a];
    forall i | 0 <= i < |as'| ensures HasEntity(es, as'[i].bankEntityId) {
      assert as'[i].bankEntityId == accts[i].bankEntityId;
    }
  }

  /** `update(['saldo_actual' => saldo_actual + amount])`. */
  function Credited(a: BankAccount, amount: int): (r: BankAccount)
    ensures r.saldoActual == a.saldoActual + amount
    ensures r.(saldoActual := a.saldoActual) == a
  {
    a.(saldoActual := a.saldoActual + amount)
  }

  /** Two balance adjustments are one adjustment by their sum, in either order. */
  lemma CreditedAdditive(a: BankAccount, x: int, y: int)
    ensures Credited(Credited(a, x), y) == Credited(a, x + y)
    ensures Credited(Credited(a, x), y) == Credited(Credited(a, y), x)
    ensures Credited(a, 0) == a
  {
  }

  /** A toggled status, toggled again, is the original. */
  lemma TogglesAreInvolutions(e: BankEntity, a: BankAccount)
    ensures e.(activo := !e.activo).(activo := !e.(activo := !e.activo).activo) == e
    ensures a.(activa := !a.activa).(activa := !a.(activa := !a.activa).activa) == a
  {
  }

  class BankRegistry {
    var entities: seq<BankEntity>
    var accounts: seq<BankAccount>

    ghost predicate Valid()
      reads this
    {
      AccountsReferenceEntities(entities, accounts)
    }

    constructor()
      ensures Valid() && entities == [] && accounts == []
    {
      entities := [];
      accounts := [];
    }

    /** `BankEntityService::delete`: refused while any account belongs to the entity. */
    method DeleteEntity(id: nat) returns (r: Result<bool, BankError>)
      requires Valid()
      modifies this
      ensures Valid()
      ensures EntityIndex(old(entities), id).None? ==> r == Err(NotFound) && unchanged(this)
      ensures EntityIndex(old(entities), id).Some? && HasAccountsOf(old(accounts), id) ==>
                r == Err(HasAccounts) && unchanged(this)
      ensures EntityIndex(old(entities), id).Some? && !HasAccountsOf(old(accounts), id) ==>
                && r == Ok(true)
                && entities == RemoveAt(old(entities), EntityIndex(old(entities), id).value)
                && accounts == old(accounts)
    {
      var found := EntityIndex(entities, id);
      if found.None? {
        return Err(NotFound);
      }
      if HasAccountsOf(accounts, id) {
        return Err(HasAccounts);
      }
      RemoveUnreferencedEntity(entities, accounts, found.value);
      entities := RemoveAt(entities, found.value);
      r := Ok(true);
    }

    /** `BankEntityService::toggleStatus`: `activo` flipped, nothing else changed. */
    method ToggleEntityStatus(id: nat) returns (r: Result<bool, BankError>)
      requires Valid()
      modifies this
      ensures Valid() && accounts == old(accounts)
      ensures EntityIndex(old(entities), id).None? ==> r == Err(NotFound) && unchanged(this)
      ensures EntityIndex(old(entities), id).Some? ==>
        var j := EntityIndex(old(entities), id).value;
        r == Ok(true) && entities == old(entities)[j := old(entities)[j].(activo := !old(entities)[j].activo)]
    {
      var found := EntityIndex(entities, id);
      if found.None? {
        return Err(NotFound);
      }
      var j := found.value;
      ChangedEntityKeepsReferences(entities, accounts, j, entities[j].(activo := !entities[j].activo));
      entities := entities[j := entities[j].(activo := !entities[j].activo)];
      r := Ok(true);
    }

    /** `BankAccountService::toggleStatus`: `activa` flipped, nothing else changed. */
    method ToggleAccountStatus(id: nat) returns (r: Result<bool, BankError>)
      requires Valid()
      modifies this
      ensures Valid() && entities == old(entities)
      ensures AccountIndex(old(accounts), id).None? ==> r == Err(NotFound) && unchanged(this)
      ensures AccountIndex(old(accounts), id).Some? ==>
        var j := AccountIndex(old(accounts), id).value;
        r == Ok(true) && accounts == old(accounts)[j := old(accounts)[j].(activa := !old(accounts)[j].activa)]
    {
      var found := AccountIndex(accounts, id);
      if found.None? {
        return Err(NotFound);
      }
      var j := found.value;
      ChangedAccountKeepsReferences(entities, accounts, j, accounts[j].(activa := !accounts[j].activa));
      accounts := accounts[j := accounts[j].(activa := !accounts[j].activa)];
      r := Ok(true);
    }

    /** `BankAccountService::updateBalance`: saldo_actual grows by `amount`, nothing else changes. */
    method UpdateBalance(id: nat, amount: int) returns (r: Result<bool, BankError>)
      requires Valid()
      modifies this
      ensures Valid() && entities == old(entities)
      ensures AccountIndex(old(accounts), id).None? ==> r == Err(NotFound) && unchanged(this)
      ensures AccountIndex(old(accounts), id).Some? ==>
        var j := AccountIndex(old(accounts), id).value;
        r == Ok(true) && accounts == old(accounts)[j := Credited(old(accounts)[j], amount)]
    {
      var found := AccountIndex(accounts, id);
      if found.None? {
        return Err(NotFound);
      }
      var j := found.value;
      ChangedAccountKeepsReferences(entities, accounts, j, Credited(accounts[j], amount));
      accounts := accounts[j := Credited(accounts[j], amount)];
      r := Ok(true);
    }
  }
}
