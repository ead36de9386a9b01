# Treasury core of smart-seguridad, modelled in Dafny

This project models the treasury back office of the smart-seguridad Laravel
application, together with the few front-end helpers that carry logic of
their own. The model covers:

- **The client current account** (`cuenta corriente`). Every movement
  stores the running balance (`saldo`): the saldo of the same client's
  latest movement by id, plus `debe`, minus `haber`. Every insert or delete
  of a movement is meant to refresh the client's cached `saldo` as
  Σdebe − Σhaber. As written that refresh writes nothing, because `saldo`
  is not a fillable attribute (see Findings). The model states the
  intended refresh, which the rest of the ledger uses, and proves what the
  written one does beside it.
- **The client life cycle**:
  - the internal code `CLI-nnnnnn` and the age set by the creating and
    updating hooks;
  - the opening 0/0 movement inserted on creation;
  - the two guards that refuse a soft delete;
  - the unconditional restore;
  - the client taxes and certificates, which are found only through their
    owner.
- **The validation of a user-submitted movement**: the rule table, and the
  extra check that `debe` and `haber` are not both zero.
- **Certificate expiry**: `vigente`, `isExpired`, `days_until_expiration`
  and `isExpiringSoon`, and the expiring-certificate queries built from them.
- **Payment orders** (`OP-` + 8 digits), **cash withdrawals** (`TE0` + 8
  digits) and **receipts** (`REC-` + 6 digits). For each: its numbering,
  its totals over line items, the replacement of its child rows on update,
  its status rules and its deletion.
- **The CUIT** (Argentine tax id) mod-11 check digit, in its three copies:
  - the server validation rule;
  - the browser helpers, together with `formatCuit` and `validateEmail`;
  - the test-data generator.
- **The bank guards and queries**: an entity cannot be deleted while it
  has accounts; the status toggles; the balance adjustment; the filtered
  listings.
- **The front-end `route(name, params, absolute)` helper.**

How the model represents the system:

- Amounts are integer cents, since the `decimal(15,2)` columns hold exactly
  two decimals.
- Dates are day numbers. Timestamps ("now") are seconds. Both are
  parameters, as is the origin of the browser window.
- Each service call runs as one transaction. It either changes the store as
  stated or returns an error and changes nothing, except where the source
  commits before it fails.
- Tables the source mutates are fields of classes: `ClientLedger.Ledger`,
  `PaymentOrders.PaymentOrderBook`, `CashWithdrawals.WithdrawalBook`,
  `Receipts.ReceiptBook` and `Banks.BankRegistry`. Each class has an
  invariant `Valid()`, and each method is proved against the functions of
  its module.

Laravel and PHP behaviour that the source relies on, written out in the model:

- **Soft deletes.** Clients, payment orders and receipts are soft-deleted.
  `latest('id')->first()` skips trashed rows.
- **Unique indexes.** A unique index still covers trashed rows. A number
  generated after the latest row was trashed therefore collides, and the
  insert fails (`DuplicateNumber`).
- **Hard deletes.** Cash withdrawals and bank entities are not
  soft-deleted.
- **Falsy values.** A `!$x` / `empty()` test treats null, `""` and `"0"`
  as absent (`Common.PhpEmpty`).
- **String conversions.** `intval` is modelled on the strings the services
  read back, which are generated as digits only: an optional sign and the
  leading digits. A leading number with a fraction or an exponent, which PHP
  7.1 and later read through a float (`intval("1e3")` is 1000), is not
  modelled. `str_pad` never truncates. `substr` past the end gives `""`.
- **Undefined keys.** Reading an undefined array key raises an exception
  under Laravel, so the transaction rolls back. The model covers these
  cases for receipts:
  - an item without `subtotal` on creation (`MissingSubtotal`);
  - a missing or null `client_id` on creation and on update
    (`MissingClient`; null fails the NOT NULL column);
  - a missing `estado`, `fecha_recibo` or `metodo_pago` on update
    (`MissingField`).

  Items missing `descripcion`, `cantidad` or `precio_unitario` are not
  modelled (see "## Left out").
- **Trashed clients.** `$movement->client` is null for a trashed client,
  so the hook that refreshes the client's balance fails.
- **Mass assignment.** `update([...])` writes only the keys in the model's
  `$fillable` list and silently drops the others.
- **Loose comparison.** Under PHP 8, `$s == 0` for a string `$s` compares
  numerically when `$s` is a numeric string (whitespace around it, a sign,
  digits with at most one `.`, an exponent), and compares `$s` with `"0"`
  otherwise. `null == 0` holds.
- **JavaScript truthiness.** A number param is falsy when it is `0` or
  `NaN`; a string param when it is empty.
- **Collations.** `ORDER BY` on a string column compares under the
  column's collation. The model takes the collation as a parameter that is
  a total preorder.
- **Regular expressions.** PCRE's `$` also matches before one final
  newline. JavaScript's `$` does not. JavaScript's `String.replace` with a
  string pattern replaces only the first occurrence.

### The CUIT length check is reachable

The length check of `app/Rules/ValidCuitFormat.php:21-24` looks dead: a
value that matches `^\d{2}-\d{8}-\d$` seems always to leave 11 digits
once its dashes are removed. It is reachable. The PHP pattern has no `D`
modifier, so it also accepts `"20-12345678-6\n"`. Removing the dashes from
that value leaves 12 characters, and the rule fails with "El CUIT debe
tener 11 dígitos". `Cuit.ValidCuitFormat` states this case (`BadLength`),
and `Cuit.DashlessWithNewline` proves the length is 12.

## Model

| member | source | states |
|---|---|---|
| CurrentAccount.OfClientMember | app/Models/Treasury/CurrentAccountMovement.php:50 | A movement is consulted for a client iff it is stored and has that `client_id`. |
| CurrentAccount.LatestOf | app/Models/Treasury/CurrentAccountMovement.php:50-52 | The latest movement is absent iff the client has none. Otherwise it is a movement of that client whose id is the highest of the client's ids. |
| CurrentAccount.LatestOfAppend | app/Models/Treasury/CurrentAccountMovement.php:50-52 | Appending a movement of another client leaves the latest unchanged. Appending one of the same client makes it the latest, unless an existing one has a higher id. |
| CurrentAccount.LatestIsLastOfClient | app/Models/Treasury/CurrentAccountMovement.php:50-52 | When ids increase along the table, the latest by id is the client's last row. |
| CurrentAccount.LatestNoneIffNoMovements | app/Models/Treasury/CurrentAccountMovement.php:52-54 | There is no latest movement exactly when the client's ledger is empty, so the previous balance is 0. |
| CurrentAccount.PreviousBalanceOwnLedger | app/Models/Treasury/CurrentAccountMovement.php:50-54 | Other clients' movements never change a client's previous balance. |
| CurrentAccount.Stamp | app/Models/Treasury/CurrentAccountMovement.php:54-55 | The creating hook sets `saldo` to the previous balance + debe − haber and changes no other field. |
| CurrentAccount.FirstMovementSaldo | app/Models/Treasury/CurrentAccountMovement.php:54-55 | A client's first movement gets `saldo` = debe − haber. |
| CurrentAccount.SuppliedSaldoIgnored | app/Models/Treasury/CurrentAccountMovement.php:21-55 | A caller-supplied `saldo` has no effect: it is fillable but always overwritten. |
| CurrentAccount.StampedAt | app/Models/Treasury/CurrentAccountMovement.php:48-56 | In a table built by stamped appends, each movement's saldo is its client's Σdebe − Σhaber up to and including it. |
| CurrentAccount.StampedAppend | app/Models/Treasury/CurrentAccountMovement.php:48-56 | Appending a stamped movement with a fresh, higher id keeps the prefix-sum property and the increasing ids. |
| CurrentAccount.StampedPreviousIsBalance | app/Models/Treasury/CurrentAccountMovement.php:50-55 | In such a table, the previous balance the hook reads equals the client's computed balance. |
| CurrentAccount.StampedLastIsBalance | app/Models/Treasury/CurrentAccountMovement.php:48-61 | In such a table, the client's last movement's saldo equals the balance the intended `created` refresh stores on the client. |
| CurrentAccount.CalculateBalance | app/Models/Treasury/Client.php:99-106 | `calculateBalance` is 0 when the client has no movements. |
| CurrentAccount.CalculateBalanceAppend | app/Models/Treasury/Client.php:99-106 | Appending a movement changes the client's balance by exactly its debe − haber, and does not change other clients' balances. |
| CurrentAccount.OfClientAppend | app/Models/Treasury/Client.php:99-106 | The client's ledger grows by the appended movement iff it belongs to that client. |
| CurrentAccount.ZeroMovementsNotPending | app/Models/Treasury/Client.php:129-137 | When all of a client's movements have debe = haber = 0, `hasPendingMovements` is false. |
| CurrentAccount.HasPendingAppend | app/Models/Treasury/Client.php:129-137 | After an append, pending holds iff it held before or the new movement is the client's and has a non-zero amount. |
| CurrentAccount.PendingIsPermanent | app/Models/Treasury/Client.php:129-137 | Further appends never clear pending movements. |
| CurrentAccount.NotPendingBalanceZero | app/Models/Treasury/Client.php:99-137 | A client without pending movements has balance 0. |
| CurrentAccount.RemoveKeepsNotPending | app/Models/Treasury/Client.php:129-137 | Deleting a movement never creates pending movements. |
| CurrentAccount.OpeningLeavesZero | app/Observers/ClientObserver.php:36-47 | For a new client the opening 0/0 movement gets saldo 0. It leaves the balance 0 and no pending movements. |
| CurrentAccount.RemoveId | app/Models/Treasury/CurrentAccountMovement.php:63-66 | Deleting a movement keeps exactly the rows with other ids. |
| CurrentAccount.RemoveIdKeepsOrder | app/Models/Treasury/CurrentAccountMovement.php:63-66 | Deleting keeps the ids increasing. |
| CurrentAccount.OfClientRemoveOther | app/Models/Treasury/CurrentAccountMovement.php:63-66 | Deleting another client's movement leaves a client's ledger unchanged. |
| CurrentAccount.DeleteDoesNotRestamp | app/Models/Treasury/CurrentAccountMovement.php:63-66 | Deleting the first of a client's two stamped movements leaves the second row unchanged. The refreshed balance is that row's debe − haber. The remaining ledger is still stamped exactly when the deleted movement had debe = haber; otherwise the stored saldo of the later row is stale. |
| Certificates.WholeDays | app/Models/Treasury/ClientCertificate.php:40-43 | A signed number of seconds becomes whole days, truncated toward zero. |
| Certificates.DaysUntilExpiration | app/Models/Treasury/ClientCertificate.php:40-43 | The days are ≥ 0 iff expiry is less than a day in the past, and ≤ 0 iff expiry is less than a day ahead. |
| Certificates.DaysUntilExpirationSign | app/Models/Treasury/ClientCertificate.php:35-49 | A vigente certificate has days ≥ 0, one expired by a day or more has days < 0, and an expired one has days ≤ 0. |
| Certificates.DaysUntilExpirationAtMidnight | app/Models/Treasury/ClientCertificate.php:40-43 | At midnight the days are exactly the expiry date minus today. |
| Certificates.ExpiredIffNotVigente | app/Models/Treasury/ClientCertificate.php:35-49 | `isExpired` is exactly the negation of `vigente`. |
| Certificates.IsExpiringSoonMonotone | app/Models/Treasury/ClientCertificate.php:51-55 | Expiring soon under threshold t1 implies expiring soon under any t2 ≥ t1. |
| Certificates.ExpiredButExpiringSoon | app/Models/Treasury/ClientCertificate.php:46-55 | Example: a certificate that expired at midnight is, ten hours later, expired and still "expiring soon" with 0 days left. |
| Clients.Age | app/Models/Treasury/Client.php:170-172 | The age is the number of completed years: the birthday n years on is reached and the one n+1 years on is not, and n ≥ 0 for a past birth date. |
| Clients.NextClientNumber | app/Models/Treasury/Client.php:184-185 | The next number exceeds every id, trashed rows included. For a non-empty table it is one more than the highest id; for an empty table it is 1. |
| Clients.GenerateClientCode | app/Models/Treasury/Client.php:182-188 | The code starts with `CLI-` and has at least 6 digits after it. |
| Clients.GenerateClientCodeEmpty | app/Models/Treasury/Client.php:182-188 | An empty table gives `CLI-000001`. |
| Clients.GenerateClientCodeNumber | app/Models/Treasury/Client.php:182-188 | The digits after `CLI-` read back as the next id. |
| Clients.GenerateClientCodeLength | app/Models/Treasury/Client.php:187 | The code has exactly 6 digits iff the next id is below 10^6; larger ids are not truncated. |
| Clients.GenerateClientCodeInjective | app/Models/Treasury/Client.php:182-188 | Different next ids give different codes. |
| Clients.CreatingHook | app/Models/Treasury/Client.php:165-173 | The code is assigned only when the current one is falsy. The age is set only when a birth date is present. Nothing else changes, and the result always has a code. |
| Clients.CreatingHookIdempotent | app/Observers/ClientObserver.php:15-30 | Running the observer's identical creating hook after the model's one changes nothing. |
| Clients.UpdatingHook | app/Models/Treasury/Client.php:175-179 | Only `edad` may change. It changes only when the birth date changed, and it then becomes the age for a non-null date. |
| Clients.UpdatingHookIdempotent | app/Observers/ClientObserver.php:61-71 | The observer's repeat of the updating hook changes nothing. |
| Clients.UpdatingHookKeepsAge | app/Observers/ClientObserver.php:61-89 | Without a changed non-null birth date the update passes through untouched: email and documento changes are never blocked. |
| Clients.FullName | app/Models/Treasury/Client.php:91-96 | `full_name` has no surrounding whitespace and occurs inside `nombre + " " + apellido`. |
| Clients.FullNameJoins | app/Models/Treasury/Client.php:91-96 | With untrimmed ends absent, `full_name` is `nombre + " " + apellido`. |
| Clients.FullNameWithoutApellido | app/Models/Treasury/Client.php:91-96 | With an empty apellido, `full_name` is the nombre alone: the separating space is trimmed. |
| Clients.SearchClients | app/Services/Treasury/ClientService.php:297-316 | Only stored, non-trashed clients are listed. With a truthy term every listed client matches it in nombre, apellido, documento or codigo_interno, and every live client that matches is listed. With a falsy term every live client is listed. |
| Clients.FalsySearchListsAll | app/Services/Treasury/ClientService.php:303-305 | A falsy term, `"0"` included, gives the same listing as no term. |
| Clients.SearchFindsOwnKeys | app/Models/Treasury/Client.php:150-158 | A live client is found by a search for its own documento, and for its own codigo_interno when that is truthy. |
| Clients.SearchNarrows | app/Models/Treasury/Client.php:150-158 | A search can only narrow the listing, and the empty term is no filter. |
| Clients.GetClients | app/Services/Treasury/ClientService.php:319-322 | The clients are the part of the unfiltered listing flagged `es_cliente`. |
| Clients.GetProviders | app/Services/Treasury/ClientService.php:327-330 | The providers are the part of the unfiltered listing flagged `es_proveedor`. |
| Clients.ListingsWithinAll | app/Services/Treasury/ClientService.php:319-330 | Clients and providers together lie within the unfiltered listing, and a trashed client is in neither. |
| Clients.ClientsAndProvidersOverlap | app/Models/Treasury/Client.php:140-148 | A row flagged as both appears in both listings. |
| Clients.GetExpiringCertificates | app/Models/Treasury/Client.php:121-127 | Exactly the client's certificates with now ≤ expiry ≤ now + d days. |
| Clients.ExpiringCertificatesAreExpiringSoon | app/Models/Treasury/Client.php:121-127 | Every certificate the query returns is vigente and `isExpiringSoon(d)`. |
| Clients.ExpiryWindowAtMidnight | app/Models/Treasury/Client.php:121-127 | At midnight the query window and `isExpiringSoon(d)` agree exactly. |
| Clients.ExpiringImpliesActive | app/Models/Treasury/Client.php:113-127 | A certificate the expiry query returns implies `hasActiveCertificate` for its type. |
| MovementRequest.FormatCentsRoundTrip | app/Http/Requests/Treasury/StoreCurrentAccountMovementRequest.php:20-21 | Every amount in cents has a spelling that matches `^\d+(\.\d{1,2})?$` and reads back as the same cents. |
| MovementRequest.AmountTwoDecimals | app/Http/Requests/Treasury/StoreCurrentAccountMovementRequest.php:20-21 | `100.50` is accepted and read as 10050 cents. |
| MovementRequest.AmountOneDecimal | app/Http/Requests/Treasury/StoreCurrentAccountMovementRequest.php:20-21 | `1.5` is accepted and read as 150 cents. |
| MovementRequest.AmountWhole | app/Http/Requests/Treasury/StoreCurrentAccountMovementRequest.php:20-21 | `7` is accepted and read as 700 cents; with a trailing newline it still matches. |
| MovementRequest.ZeroCentsLiteral | app/Http/Requests/Treasury/StoreCurrentAccountMovementRequest.php:20-21 | `0.00` matches the pattern and is 0 cents. |
| MovementRequest.ZeroWholeLiteral | app/Http/Requests/Treasury/StoreCurrentAccountMovementRequest.php:20-21 | `0` matches the pattern and is 0 cents. |
| MovementRequest.AmountRefused | app/Http/Requests/Treasury/StoreCurrentAccountMovementRequest.php:20-21 | `1.505`, `-1`, `1e3` and `.5` are refused. |
| MovementRequest.Validated | app/Http/Requests/Treasury/StoreCurrentAccountMovementRequest.php:17-23 | An accepted request yields non-negative amounts, not both zero, a non-blank concepto of at most 255 characters, and the length limits on detalle and documento_tipo. |
| MovementRequest.MovimientoErrorIffBothZero | app/Http/Requests/Treasury/StoreCurrentAccountMovementRequest.php:46-51 | The `movimiento` error is added iff debe and haber are both null or PHP 8 numeric strings worth zero. |
| MovementRequest.ExponentStart | app/Http/Requests/Treasury/StoreCurrentAccountMovementRequest.php:48 | The exponent of a numeric string starts at its first `e` or `E`, or at its end when there is none. |
| MovementRequest.AmountZeroIff | app/Http/Requests/Treasury/StoreCurrentAccountMovementRequest.php:20-48 | For an amount that matches the pattern, PHP's `== 0` holds exactly when the amount is zero cents. |
| MovementRequest.MinusZeroIsZero | app/Http/Requests/Treasury/StoreCurrentAccountMovementRequest.php:48 | `-0` equals 0. |
| MovementRequest.PlusZeroFractionIsZero | app/Http/Requests/Treasury/StoreCurrentAccountMovementRequest.php:48 | `+0.0` equals 0. |
| MovementRequest.SpacedZeroIsZero | app/Http/Requests/Treasury/StoreCurrentAccountMovementRequest.php:48 | `" 0 "` equals 0: whitespace around a numeric string is allowed. |
| MovementRequest.ExponentZeroIsZero | app/Http/Requests/Treasury/StoreCurrentAccountMovementRequest.php:48 | `0e5` equals 0. |
| MovementRequest.BareFractionIsZero | app/Http/Requests/Treasury/StoreCurrentAccountMovementRequest.php:48 | `.0` equals 0. |
| MovementRequest.HexZeroNotZero | app/Http/Requests/Treasury/StoreCurrentAccountMovementRequest.php:48 | `0x0` is not numeric under PHP 8, so it does not equal 0. |
| MovementRequest.EmptyAndDotNotZero | app/Http/Requests/Treasury/StoreCurrentAccountMovementRequest.php:48 | Neither `""` nor `.` equals 0. |
| MovementRequest.SignedZeroRaisesMovimiento | app/Http/Requests/Treasury/StoreCurrentAccountMovementRequest.php:20-51 | A debe of `-0` with a haber of `0` fails the debe pattern and also raises `movimiento`. |
| MovementRequest.ZeroAmountsRefused | app/Http/Requests/Treasury/StoreCurrentAccountMovementRequest.php:46-51 | Example: `0.00` and `0` are refused with the `movimiento` error. |
| MovementRequest.AcceptedMakesPending | app/Http/Requests/Treasury/StoreCurrentAccountMovementRequest.php:48-50 | Inserting any accepted movement makes the client's `hasPendingMovements` true. |
| ClientLedger.OpeningInput | app/Observers/ClientObserver.php:39-47 | The opening movement has debe = haber = 0 and concepto "Apertura de cuenta corriente". |
| ClientLedger.DeleteGuard | app/Observers/ClientObserver.php:108-124 | Deletion is allowed iff saldo = 0 and no movement has an amount. A non-zero saldo is reported first, with its absolute value. |
| ClientLedger.SettledButRefused | app/Observers/ClientObserver.php:119-124 | Example: movements 100/0 then 0/100 net to 0, yet deletion is refused for movements present. |
| ClientLedger.TaxIndex | app/Services/Treasury/ClientService.php:143 | A tax row is found iff it has the id and belongs to the given client. |
| ClientLedger.CertificateIndex | app/Services/Treasury/ClientService.php:200 | A certificate is found iff it has the id and belongs to the given client. |
| ClientLedger.AddClientKeepsInvariant | app/Observers/ClientObserver.php:36-47 | Adding a fresh client with saldo 0 keeps the store invariant: rows keyed by id, every cached saldo equal to the computed balance, trashed clients settled, children owned by existing clients. |
| ClientLedger.RefreshBalance | app/Models/Treasury/Client.php:99-111 | The intended refresh: row `cid` gets the computed balance as its saldo, keeps its id, attributes and trashed flag, and every other row is unchanged. |
| ClientLedger.RefreshBalanceAsWritten | app/Models/Treasury/Client.php:108-111 | The refresh as written leaves the client table exactly as it was, because `saldo` is not in `$fillable` (lines 21-48). |
| ClientLedger.RefreshDiscardedExample | app/Models/Treasury/Client.php:108-111 | After a first movement of 100.00 debe, the written refresh keeps saldo 0 and the delete guard reports the movements. The intended refresh stores 100.00, and the guard reports the pending balance. |
| ClientLedger.AppendKeepsInvariant | app/Models/Treasury/CurrentAccountMovement.php:48-61 | Appending a movement of a live client and applying the intended refresh keeps the store invariant. |
| ClientLedger.RemoveKeepsInvariant | app/Models/Treasury/CurrentAccountMovement.php:63-66 | Deleting a movement and applying the intended refresh keeps the store invariant. |
| ClientLedger.Ledger.InsertMovement | app/Models/Treasury/CurrentAccountMovement.php:48-61 | Appends the stamped movement with the next id and applies the intended refresh. The client's saldo becomes the old saldo + debe − haber, which equals the new row's saldo. Nothing else changes. |
| ClientLedger.Ledger.CreateMovement | app/Services/Treasury/ClientService.php:235-250 | Appends exactly one stamped movement to a live client and applies the intended refresh. For a trashed client it fails and changes nothing. |
| ClientLedger.Ledger.DeleteMovement | app/Models/Treasury/CurrentAccountMovement.php:63-66 | An unknown id gives `NotFound` and changes nothing, and `NotFound` comes only from an unknown id. A present movement is removed. Then the result is `Ok(owner)` with the intended refresh applied to the owner when the owner is not trashed, and `ClientTrashed` with clients unchanged when it is. Other rows' saldo is not restamped. |
| ClientLedger.OwnerOfStoredId | app/Models/Treasury/CurrentAccountMovement.php:63-66 | With unique ids, every movement with id `mid` has the client `MovementOwner` names, so the deleted row's own client is the one refreshed. |
| ClientLedger.RecentOf | app/Services/Treasury/ClientService.php:259-262 | At most 10 rows, fewer only when the client has fewer. They are ordered by fecha descending and are distinct rows of that client (a sub-multiset of its ledger). Every row left out has a fecha no later than each row listed. |
| ClientLedger.Ledger.GetClientBalance | app/Services/Treasury/ClientService.php:257-273 | Returns the cached saldo, the debe and haber sums, the count, and as `ultimos_movimientos` the ten latest rows by fecha that `RecentOf` characterises. |
| ClientLedger.Ledger.BalanceInfoConsistent | app/Services/Treasury/ClientService.php:257-273 | Under the store invariant kept by the intended refresh, `saldo_actual` = `total_debe` − `total_haber`. |
| ClientLedger.Ledger.CreateClient | app/Observers/ClientObserver.php:15-47 | Both creating hooks run, the client row is stored with saldo 0, and exactly one opening movement is inserted. A duplicate documento or code fails and changes nothing. |
| ClientLedger.Ledger.UpdateClient | app/Observers/ClientObserver.php:61-89 | The attributes are replaced after the updating hooks. Movements and saldo are untouched. A duplicate key fails and changes nothing. |
| ClientLedger.Ledger.DeleteClient | app/Services/Treasury/ClientService.php:68-97 | A saldo ≠ 0 or a pending movement fails with that error and changes nothing. Otherwise the client is soft-deleted, the result is `true`, and nothing else changes. |
| ClientLedger.Ledger.DeleteGuardIsPendingCheck | app/Observers/ClientObserver.php:108-124 | Under the store invariant kept by the intended refresh, the saldo guard is subsumed: deletion is allowed iff there are no pending movements. |
| ClientLedger.Ledger.RestoreClient | app/Services/Treasury/ClientService.php:103-116 | Restore clears the trashed flag unconditionally and changes nothing else. |
| ClientLedger.Ledger.AttachTax | app/Services/Treasury/ClientService.php:121-135 | Appends the tax row for the client, unless the (client, tax, date) unique key is taken. |
| ClientLedger.Ledger.UpdateTax | app/Services/Treasury/ClientService.php:140-154 | Only a tax row of the given client is found and rewritten. Otherwise NotFound, and nothing changes. |
| ClientLedger.Ledger.DetachTax | app/Services/Treasury/ClientService.php:159-173 | Only a tax row of the given client is removed. Otherwise NotFound, and nothing changes. |
| ClientLedger.Ledger.AttachCertificate | app/Services/Treasury/ClientService.php:178-192 | Appends the certificate for the client with the next id. |
| ClientLedger.Ledger.UpdateCertificate | app/Services/Treasury/ClientService.php:197-211 | Only a certificate of the given client is found and rewritten. Otherwise NotFound, and nothing changes. |
| ClientLedger.Ledger.DeleteCertificate | app/Services/Treasury/ClientService.php:216-230 | Only a certificate of the given client is removed. Otherwise NotFound, and nothing changes. |
| ClientLedger.Ledger.CheckExpiringCertificates | app/Services/Treasury/ClientService.php:279-292 | Exactly one entry per certificate of a non-trashed client inside the expiry window, carrying its days remaining. |
| ClientLedger.ExpiringEntries | app/Services/Treasury/ClientService.php:279-292 | The `flatMap` over clients yields exactly those entries. |
| ClientLedger.ExpiringEntriesAreExpiringSoon | app/Services/Treasury/ClientService.php:279-292 | Every entry is expiring soon with 0 ≤ days remaining ≤ d. |
| Common.TopBy | app/Services/Treasury/ClientService.php:259-262 | `orderBy(...)->take(k)`: min(k, n) elements, sorted, drawn from the input as a sub-multiset. Every element left out sorts after each element taken. |
| Common.SerialRoundTrip | app/Services/Treasury/PaymentOrderService.php:58-59 | `intval(substr(prefix + pad(n), |prefix|))` = n for every n: parsing inverts formatting. |
| PaymentOrders.StatusPresentation | app/Models/Treasury/PaymentOrder.php:106-124 | `en_proceso`, `cerrada` and `anulada` map to "En Proceso"/warning, "Cerrada"/success and "Anulada"/danger. Any other status maps to itself/secondary. |
| PaymentOrders.StatusLabelsDistinct | app/Models/Treasury/PaymentOrder.php:106-124 | Distinct statuses get distinct labels and colours. |
| PaymentOrders.NewOrder | app/Services/Treasury/PaymentOrderService.php:65-84 | A new order has status en_proceso, `subtotal` = Σ values, `total_withholdings` = Σ withholdings, `total` = `amount_paid` = subtotal, and `balance` 0. |
| PaymentOrders.WithTotals | app/Services/Treasury/PaymentOrderService.php:129-133 | An update sets the same totals. The record's id, number, status and trashed flag are kept. |
| PaymentOrders.WithholdingsNotSubtracted | app/Services/Treasury/PaymentOrderService.php:82-84 | Example: with 1000.00 paid and 100.00 withheld, the total stays 1000.00. |
| PaymentOrders.LatestLive | app/Services/Treasury/PaymentOrderService.php:57 | The latest order is absent iff every row is trashed. Otherwise it is a live row and every row after it is trashed. |
| PaymentOrders.LatestLiveHighestId | app/Services/Treasury/PaymentOrderService.php:57 | With ids increasing along the table, no live order has a higher id than the one `latest('id')` returns. |
| PaymentOrders.NextOrderNumberSteps | app/Services/Treasury/PaymentOrderService.php:57-59 | With no live order the number is `OP-00000001`. After a live `OP-` + pad8(n) it is `OP-` + pad8(n+1). |
| PaymentOrders.OrderNumberLiterals | app/Services/Treasury/PaymentOrderService.php:59 | pad8 of 1 and 2 gives `OP-00000001` and `OP-00000002`. |
| PaymentOrders.TrashedLatestNumberCollides | app/Services/Treasury/PaymentOrderService.php:57-59 | Example: after the latest order is trashed, its number is generated again and is already taken. |
| PaymentOrders.StatusChangeError | app/Services/Treasury/PaymentOrderService.php:166-172 | A change is refused iff the order is anulada, or it is cerrada and the request is en_proceso. |
| PaymentOrders.StatusesReachable | app/Services/Treasury/PaymentOrderService.php:161-177 | Over any sequence of requests, an anulada order stays anulada and a cerrada one never returns to en_proceso. |
| PaymentOrders.GetAllWithFilters | app/Services/Treasury/PaymentOrderService.php:15-48 | Every listed id is a live order that passes each filter that is set: the search (by number, concepto or client name, also stated through the scope), the status, and each date bound. Every live order passing the filters is listed, and with no filters every live order is. |
| PaymentOrders.ServiceFiltersAgainstScopes | app/Models/Treasury/PaymentOrder.php:73-103 | The service search implies the `search` scope. Status `all` is a filter in the service but none in `byStatus`. Any other status filters alike in both. |
| PaymentOrders.DetailOnlyInScope | app/Models/Treasury/PaymentOrder.php:73-84 | Example: a match only in `detail` is found by the scope and missed by the service. |
| PaymentOrders.CreateKeepsInvariant | app/Services/Treasury/PaymentOrderService.php:53-105 | Adding an order with its value and withholding rows keeps every live order's totals equal to the sums of its child rows. |
| PaymentOrders.ReplaceKeepsInvariant | app/Services/Treasury/PaymentOrderService.php:110-156 | Replacing an order's children along with its totals keeps the invariant. |
| PaymentOrders.StatusKeepsInvariant | app/Services/Treasury/PaymentOrderService.php:174 | A status change keeps the invariant. |
| PaymentOrders.PaymentOrderBook.Create | app/Services/Treasury/PaymentOrderService.php:53-105 | Stores the numbered order and its children, whose rows are exactly the supplied lists. A taken number fails and changes nothing. |
| PaymentOrders.PaymentOrderBook.Update | app/Services/Treasury/PaymentOrderService.php:110-156 | Rewrites the totals and replaces the order's values and withholdings with exactly the supplied lists. An unknown id changes nothing. |
| PaymentOrders.PaymentOrderBook.ChangeStatus | app/Services/Treasury/PaymentOrderService.php:161-177 | A refused transition raises its error and changes nothing. Otherwise only `status` changes. |
| PaymentOrders.SumValues | app/Services/Treasury/PaymentOrderService.php:65-72 | The loop over the values adds up to the order subtotal, Σ amount. |
| PaymentOrders.SumWithholdings | app/Services/Treasury/PaymentOrderService.php:74-78 | The loop over the withholdings adds up to total_withholdings, Σ amount. |
| PaymentOrders.PaymentOrderBook.InsertOrder | app/Services/Treasury/PaymentOrderService.php:87-101 | Stores the order under the next id, then one value row and one withholding row per supplied entry. The child rows read back are exactly the supplied lists, and the invariant is kept. |
| PaymentOrders.PaymentOrderBook.ReplaceOrder | app/Services/Treasury/PaymentOrderService.php:136-152 | Rewrites one order under its own id and number. Its value and withholding rows are deleted and recreated from the given lists, and the invariant is kept. |
| PaymentOrders.PaymentOrderBook.Delete | app/Services/Treasury/PaymentOrderService.php:182-192 | Removes the order's values and withholdings, then soft-deletes the order. |
| CashWithdrawals.NewWithdrawal | app/Services/Treasury/CashWithdrawalService.php:55-64 | A new withdrawal has `total` = Σ items.amount and status en_proceso. |
| CashWithdrawals.TotalOfItems | app/Services/Treasury/CashWithdrawalService.php:55-62 | The total is 0 for no items and additive over concatenation. |
| CashWithdrawals.WithTotal | app/Services/Treasury/CashWithdrawalService.php:84-92 | An update sets the total and keeps the id, number and status. |
| CashWithdrawals.NextWithdrawalNumberSteps | app/Services/Treasury/CashWithdrawalService.php:49-51 | An empty table gives `TE000000001`. After `TE0` + pad8(n) comes `TE0` + pad8(n+1). |
| CashWithdrawals.StatusChangeError | app/Services/Treasury/CashWithdrawalService.php:111-113 | A change is refused iff the withdrawal is anulado. |
| CashWithdrawals.ClosedMayReopen | app/Services/Treasury/CashWithdrawalService.php:115 | cerrado → en_proceso is accepted. |
| CashWithdrawals.GetAllWithFilters | app/Services/Treasury/CashWithdrawalService.php:13-40 | Every listed id is a stored withdrawal that passes each filter that is set: the search on number, recipient or reason, the status, and each date bound. Every withdrawal passing the filters is listed. |
| CashWithdrawals.FiltersNarrow | app/Services/Treasury/CashWithdrawalService.php:18-37 | Without filters every withdrawal is listed, and each filter can only narrow the listing. |
| CashWithdrawals.CreateKeepsInvariant | app/Services/Treasury/CashWithdrawalService.php:45-75 | Adding a withdrawal with its items keeps every total equal to the sum of its item rows. |
| CashWithdrawals.ReplaceKeepsInvariant | app/Services/Treasury/CashWithdrawalService.php:80-104 | Replacing the items along with the total keeps the invariant. |
| CashWithdrawals.RemoveKeepsInvariant | app/Services/Treasury/CashWithdrawalService.php:123-129 | Removing a withdrawal and its items keeps the invariant. |
| CashWithdrawals.WithdrawalBook.Create | app/Services/Treasury/CashWithdrawalService.php:45-75 | Stores the numbered withdrawal and exactly the supplied items. A taken number fails and changes nothing. |
| CashWithdrawals.SumItems | app/Services/Treasury/CashWithdrawalService.php:55-61 | The loop over the items adds up to the withdrawal total, Σ amount. |
| CashWithdrawals.WithdrawalBook.InsertWithdrawal | app/Services/Treasury/CashWithdrawalService.php:64-71 | Stores the withdrawal under the next id, then one item row per supplied item. The items read back are exactly the supplied list, and the invariant is kept. |
| CashWithdrawals.WithdrawalBook.ReplaceWithdrawal | app/Services/Treasury/CashWithdrawalService.php:92-101 | Rewrites one withdrawal under its own id and number. Its item rows are deleted and recreated from the given list, and the invariant is kept. |
| CashWithdrawals.WithdrawalBook.Update | app/Services/Treasury/CashWithdrawalService.php:80-104 | Rewrites the total and replaces the items with exactly the supplied list. |
| CashWithdrawals.WithdrawalBook.ChangeStatus | app/Services/Treasury/CashWithdrawalService.php:109-118 | Fails and changes nothing iff the withdrawal is anulado. Otherwise any status is set. |
| CashWithdrawals.WithdrawalBook.Delete | app/Services/Treasury/CashWithdrawalService.php:123-129 | Removes the items, then the withdrawal row. |
| Receipts.UntilDash | app/Services/Treasury/ReceiptService.php:20 | The first piece of `explode('-')` is the longest dash-free prefix. |
| Receipts.SecondPiece | app/Services/Treasury/ReceiptService.php:20 | `explode('-')[1]` is missing iff the number has no dash. |
| Receipts.SecondPieceOfNumber | app/Services/Treasury/ReceiptService.php:20-21 | The second piece of `REC-` + pad6(n) is the padded digits. |
| Receipts.LatestLive | app/Services/Treasury/ReceiptService.php:19 | The latest receipt is absent iff every row is trashed. Otherwise it is a live row and every row after it is trashed. |
| Receipts.LatestLiveHighestId | app/Services/Treasury/ReceiptService.php:19 | With ids increasing along the table, no live receipt has a higher id than the one `orderBy('id', 'desc')->first()` returns. |
| Receipts.NextReceiptNumberFirst | app/Services/Treasury/ReceiptService.php:19-21 | With no live receipt the number is `REC-000001`. |
| Receipts.NextReceiptNumberStep | app/Services/Treasury/ReceiptService.php:19-21 | After a live `REC-` + pad6(n) comes `REC-` + pad6(n+1). |
| Receipts.SumForUpdate | app/Services/Treasury/ReceiptService.php:78-86 | The update loop's subtotal: items with an `id` add their supplied subtotal, and items without one add cantidad × precio. A missing supplied subtotal aborts. |
| Receipts.UpdateSubtotalOfNewItems | app/Services/Treasury/ReceiptService.php:81-86 | When no item carries an id, the update subtotal equals the create subtotal. |
| Receipts.MissingStaysMissing | app/Services/Treasury/ReceiptService.php:85 | Once an item with an id lacks its subtotal, the whole update aborts. |
| Receipts.CreatedItems | app/Services/Treasury/ReceiptService.php:51-58 | Created item rows store the caller's subtotal. The items fail iff some item lacks one. |
| Receipts.RecreatedItems | app/Services/Treasury/ReceiptService.php:109-117 | Recreated item rows store cantidad × precio_unitario. |
| Receipts.RecreatedSum | app/Services/Treasury/ReceiptService.php:109-117 | The recreated rows sum to the receipt subtotal computed on create. |
| Receipts.UpdateAgreesWhenSuppliedMatch | app/Services/Treasury/ReceiptService.php:81-117 | When every supplied subtotal of an id-carrying item equals its line total, the receipt subtotal equals the sum of the stored items. |
| Receipts.CreateStoresSuppliedSubtotal | app/Services/Treasury/ReceiptService.php:27-57 | Example: 2 × 500 supplied with subtotal 0 gives a receipt subtotal of 1000, but the stored item keeps 0. |
| Receipts.UpdateStoresLineTotal | app/Services/Treasury/ReceiptService.php:81-115 | Example: an item with an id, 1 × 1000, supplied with 500, gives a receipt subtotal of 500, but the stored item has 1000. |
| Receipts.NewReceipt | app/Services/Treasury/ReceiptService.php:32-48 | Given a client id, stores it; `total` = subtotal + impuesto. The defaults are today's date, estado `pendiente` and metodo_pago `efectivo`. |
| Receipts.Rewritten | app/Services/Treasury/ReceiptService.php:88-103 | An update keeps the id and number, and sets the new client id, subtotal, impuesto, total = subtotal + impuesto, date, estado and payment method. |
| Receipts.AppendKeepsWellFormed | app/Services/Treasury/ReceiptService.php:36-48 | A fresh receipt with an unused number keeps ids and numbers unique and every total = subtotal + impuesto. |
| Receipts.UpdateKeepsWellFormed | app/Services/Treasury/ReceiptService.php:92-103 | Rewriting a receipt keeps that invariant. |
| Receipts.ReceiptBook.CreateReceipt | app/Services/Treasury/ReceiptService.php:15-68 | In this order, each failing and changing nothing: a malformed latest number; a missing or null `client_id` (`MissingClient`); a taken number (`DuplicateNumber`); an item without a subtotal (`MissingSubtotal`). When every check passes, the result is `Ok` with the new id, and the receipt is stored with the computed subtotal and exactly the created items. |
| Receipts.SumLineTotals | app/Services/Treasury/ReceiptService.php:24-30 | The create loop adds up Σ cantidad × precio_unitario, ignoring any supplied subtotal. |
| Receipts.ReceiptBook.InsertReceipt | app/Services/Treasury/ReceiptService.php:36-59 | Appends the receipt under the next id, then its item rows. The rows read back are exactly the given ones, and ids and numbers stay unique. |
| Receipts.ReceiptBook.ReplaceReceipt | app/Services/Treasury/ReceiptService.php:92-118 | Rewrites one receipt from the request. Its item rows are deleted and recreated with subtotal = cantidad × precio_unitario, and the invariant is kept. |
| Receipts.ReceiptBook.UpdateReceipt | app/Services/Treasury/ReceiptService.php:74-122 | In the order the source reads them, each changing nothing: an unknown id gives `NotFound`; a missing item subtotal gives `MissingSubtotal`; a missing or null `client_id` gives `MissingClient`; a missing estado, fecha_recibo or metodo_pago gives `MissingField`. When all are present the result is `Ok(id)`, the receipt is rewritten and its items are replaced by the recreated ones. |
| Receipts.ReceiptBook.DeleteReceipt | app/Services/Treasury/ReceiptService.php:128-133 | Soft-deletes the receipt and keeps its items. |
| Cuit.CheckDigit | app/Rules/ValidCuitFormat.php:33-34 | The expected digit is ≤ 10. It is 10 iff the weighted sum ≡ 1 (mod 11), and otherwise it completes the sum to a multiple of 11. |
| Cuit.ResidueOneNeverAccepted | app/Rules/ValidCuitFormat.php:33-38 | A CUIT whose weighted sum ≡ 1 (mod 11) never passes the check. |
| Cuit.SumWeighted | app/Rules/ValidCuitFormat.php:26-31 | The loop computes the weighted sum of the first ten digits with weights 5,4,3,2,7,6,5,4,3,2. |
| Cuit.DashlessOfPattern | app/Rules/ValidCuitFormat.php:19 | For a value matching the pattern, removing the dashes leaves exactly its 11 digits. |
| Cuit.DashlessWithNewline | app/Rules/ValidCuitFormat.php:13-24 | A pattern-valid value with a final newline passes the PHP regex yet leaves 12 characters after removing the dashes. |
| Cuit.ValidCuitFormat | app/Rules/ValidCuitFormat.php:10-39 | `BadFormat` iff the PHP regex fails. `BadLength` iff the regex only matches thanks to a final newline. `BadCheckDigit` iff the digit is wrong. The value passes iff it has the exact format and a valid checksum. |
| Cuit.ParseDigit | resources/js/lib/validators.ts:23 | `parseInt` of one character is a number iff it is a digit. |
| Cuit.CuitChecksum | resources/js/lib/validators.ts:12-30 | The loop returns true iff, after removing all dashes, 11 characters remain and the eleventh is the check digit of the first ten. A non-digit makes the sum NaN, and the result is then false. |
| Cuit.FormatCuit | resources/js/lib/validators.ts:35-43 | A value without exactly 11 digits is returned unchanged. |
| Cuit.Dashed | resources/js/lib/validators.ts:42 | 11 digits dashed as `XX-XXXXXXXX-X` match the format and carry the same digits. |
| Cuit.FormatCuitShape | resources/js/lib/validators.ts:35-43 | With 11 digits the output matches `validateCuitFormat` and keeps the same digits. |
| Cuit.FormatCuitIdempotent | resources/js/lib/validators.ts:35-43 | `formatCuit` is idempotent. |
| Cuit.FormatCuitFixesPattern | resources/js/lib/validators.ts:35-43 | A value already in the format is returned unchanged. |
| Cuit.ChecksumThenFormatAccepted | resources/js/lib/validators.ts:4-43 | A value passing `validateCuitChecksum` is formatted into one passing both browser checks. |
| Cuit.ValidateEmail | resources/js/lib/validators.ts:48-51 | The email check holds iff the value splits into three non-empty parts without whitespace or `@`, as local `@` domain `.` tld. |
| Cuit.EmailShapeIff | resources/js/lib/validators.ts:49 | The same shape in terms of the first `@`: it is not the first character, it is the only `@`, there is no whitespace, and a dot follows it but is neither next to it nor last. |
| Cuit.EmailShapeFacts | resources/js/lib/validators.ts:49 | For such a split, the `@` is the first one, and there is neither whitespace nor a second `@`. |
| Cuit.EmailAccepted | resources/js/lib/validators.ts:48-51 | `ana@mail.com` is accepted. |
| Cuit.EmailWithoutDotRefused | resources/js/lib/validators.ts:48-51 | `ana@mail` is refused: no dot after the `@`. |
| Cuit.EmailWithoutLocalPartRefused | resources/js/lib/validators.ts:48-51 | `@mail.com` is refused: nothing before the `@`. |
| Cuit.EmailWithSpaceRefused | resources/js/lib/validators.ts:48-51 | `ana @mail.com` is refused: it contains a space. |
| Cuit.GenerateCuit | database/factories/Treasury/ClientFactory.php:41-58 | For tipo in 20..27 and an 8-digit documento the loop uses the rule's weights and digit. For r ≠ 1 the output is accepted by the server rule and the browser checks. For r = 1 the suffix `10` fails the format. |
| Cuit.GeneratedShape | database/factories/Treasury/ClientFactory.php:54-57 | The two outcomes of the generated digit, stated on the pieces tipo, documento and digit. |
| Banks.EntitiesWithFilters | app/Services/Treasury/BankEntityService.php:11-24 | The listing is a rearrangement of exactly the entities passing the filters. |
| Banks.EntitiesWithFiltersSpec | app/Services/Treasury/BankEntityService.php:11-24 | For any collation that is a total preorder, the listing is ordered by nombre under it and holds exactly the entities passing the filters. |
| Banks.ByNombreTotalPreorder | app/Services/Treasury/BankEntityService.php:23 | Ordering by nombre under a total-preorder collation is a total preorder. |
| Banks.CodePointCollation | app/Services/Treasury/BankEntityService.php:23 | Code-point order, one possible collation, is a total preorder. |
| Banks.EntityFiltersOptional | app/Services/Treasury/BankEntityService.php:15-21 | An absent or falsy search and an unset `activo` filter nothing. |
| Banks.ActiveEntitiesSpec | app/Services/Treasury/BankEntityService.php:26-29 | For any total-preorder collation, `getAll` holds exactly the active entities ordered by nombre, the same as the paginated listing with `activo` = true. |
| Banks.AccountsWithFilters | app/Services/Treasury/BankAccountService.php:11-36 | The listing is a rearrangement of exactly the accounts passing the conjunction of the filters. |
| Banks.AccountsWithFiltersSpec | app/Services/Treasury/BankAccountService.php:11-36 | For any total-preorder collation, the listing is ordered by numero_cuenta under it and holds exactly the accounts passing the filters. |
| Banks.ByNumeroTotalPreorder | app/Services/Treasury/BankAccountService.php:35 | Ordering by numero_cuenta under a total-preorder collation is a total preorder. |
| Banks.MonedaFilter | app/Services/Treasury/BankAccountService.php:23-25 | Setting a truthy currency filter adds exactly the condition `moneda` = that currency. |
| Banks.AccountFiltersNarrow | app/Services/Treasury/BankAccountService.php:23-25 | The listing with a currency is exactly the listing without it, restricted to that currency. |
| Banks.ActiveAccountsSpec | app/Services/Treasury/BankAccountService.php:38-41 | For any total-preorder collation, `getAll` holds exactly the active accounts ordered by numero_cuenta, the same as the listing with `activa` = true. |
| Banks.RemoveUnreferencedEntity | app/Services/Treasury/BankEntityService.php:46-53 | Removing an entity without accounts keeps every account's entity present. |
| Banks.ChangedEntityKeepsReferences | app/Services/Treasury/BankEntityService.php:55-58 | Rewriting an entity with the same id keeps the references. |
| Banks.ChangedAccountKeepsReferences | app/Services/Treasury/BankAccountService.php:64-73 | Rewriting an account with the same entity keeps the references. |
| Banks.Credited | app/Services/Treasury/BankAccountService.php:69-73 | `saldo_actual` grows by the amount and no other field changes. |
| Banks.CreditedAdditive | app/Services/Treasury/BankAccountService.php:69-73 | Two adjustments compose into one of their sum, in either order, and 0 is no change. |
| Banks.TogglesAreInvolutions | app/Services/Treasury/BankEntityService.php:55-58 | Toggling `activo` (and `activa`) twice restores the record. |
| Banks.BankRegistry.DeleteEntity | app/Services/Treasury/BankEntityService.php:46-53 | An entity with accounts is refused and nothing changes. Otherwise the entity is removed and the accounts are untouched. |
| Banks.BankRegistry.ToggleEntityStatus | app/Services/Treasury/BankEntityService.php:55-58 | Flips `activo` of that entity only. |
| Banks.BankRegistry.ToggleAccountStatus | app/Services/Treasury/BankAccountService.php:64-67 | Flips `activa` of that account only. |
| Banks.BankRegistry.UpdateBalance | app/Services/Treasury/BankAccountService.php:69-73 | Adds the amount to that account's `saldo_actual` only. |
| Routes.Lookup | resources/js/utils/route.ts:25-30 | A name is found iff the table holds it, and then the result is its template. |
| Routes.SubstituteAll | resources/js/utils/route.ts:34-37 | The loop replaces, key by key, the first `:key` with its value. |
| Routes.Route | resources/js/utils/route.ts:4-45 | An unknown name gives `#`. A known name without truthy params (absent, `0`, `NaN` or `""`) gives its template, prefixed by the origin when absolute. |
| Routes.ScalarReplacesId | resources/js/utils/route.ts:33-41 | A truthy scalar param replaces the first `:id` by its string form. A template without `:id` is unchanged. |
| Routes.AbsentKeysIgnored | resources/js/utils/route.ts:34-37 | Keys with no placeholder leave the URL unchanged. |
| Routes.SubstituteConcat | resources/js/utils/route.ts:35-37 | Substituting a concatenation of entries is substituting one list after the other. |
| Routes.SubstituteOne | resources/js/utils/route.ts:36 | One entry replaces only the first occurrence of `:key`. |
| Routes.KeyPrefixClash | resources/js/utils/route.ts:36 | A key that is a prefix of a longer placeholder corrupts it: `:client` rewrites the start of `:client_id`. |
| Routes.AbsolutePrefixesOrigin | resources/js/utils/route.ts:25-44 | For a known name the absolute URL is the origin followed by the relative one. An unknown name gives `#` without the origin. |
| Routes.LookupAt | resources/js/utils/route.ts:25 | The first table entry with the name decides the lookup. |
| Routes.TableHoldsClientRoutes | resources/js/utils/route.ts:6-23 | Every name in the table starts with `treasury.clients.`. |
| Routes.TableNamesLow | resources/js/utils/route.ts:8-15 | Each of the first six names is `treasury.clients.` followed by its remainder. |
| Routes.TableNamesHigh | resources/js/utils/route.ts:16-22 | Each of the remaining names is `treasury.clients.` followed by its remainder. |
| Routes.OtherNamesMissing | resources/js/utils/route.ts:25-30 | Any other name is missing from the table. |
| Routes.PageRoutesMissing | resources/js/utils/route.ts:6-30 | `treasury.bank-accounts.index`, `treasury.bank-entities.index` and `treasury.payment-orders.index`, which pages use, resolve to `#`. |
| Routes.ShowLookup | resources/js/utils/route.ts:10 | `treasury.clients.show` maps to `/treasury/clients/:id`. |
| Routes.ShowTemplateId | resources/js/utils/route.ts:10 | Its only `:id` sits right after the prefix `/treasury/clients/`. |
| Routes.ShowRouteExample | resources/js/utils/route.ts:10-44 | `route('treasury.clients.show', v)` is `/treasury/clients/` + v for every truthy v. |
| Routes.ShowReplace | resources/js/utils/route.ts:10-40 | Replacing `:id` in the show template by v gives `/treasury/clients/` + v. |
| Routes.NaNKeepsTemplate | resources/js/utils/route.ts:33 | The number `NaN` is falsy, so the show route keeps its `:id` placeholder. |
| Routes.NaNStringReplacesId | resources/js/utils/route.ts:33-41 | The string `"NaN"` is truthy and takes the place of `:id`. |

## Left out

- Concurrency: each read-latest-then-insert (saldo stamping and every number generator) is modelled for a single writer. Each transaction is atomic.
- Pagination, eager loading (`with`), `fresh`/`load` and `refresh` are left out. Listings are modelled as sets or ordered sequences.
- Floating point: PHP `(float)` casts and the float `$amount` of `updateBalance` are modelled as exact integer cents. JavaScript totals in the pages are not part of this model.
- Logging (`Log::`), `auth()->id()` (a parameter), `console.error` and `window.location.origin` (a parameter) are left out.
- SQL `LIKE` is modelled as case-sensitive substring containment. Collation-based case folding and the `%`/`_` wildcards inside a search term are not captured.
- Clients.Age: Carbon's `age` is modelled as completed calendar years between two dates. Leap-day birthdays follow the model's year arithmetic.
- Certificates.DaysUntilExpiration: Carbon's `diffInDays` is modelled as whole days of a signed seconds difference, truncated toward zero. Time zones and DST are not modelled.
- MovementRequest.Validated: `date`, `numeric` and `integer` follow Laravel's validator, which is not part of this model. `fecha` arrives as an optional day number. `numeric` is modelled as implied by the amount pattern, and `integer` as an optionally signed digit string without leading zeros.
- Controllers, routes, React pages and components, PDF rendering, attachments, users, roles, seeders and the empty movement observer are not part of this model.
- The FormRequest rule tables of clients, taxes, certificates and payment orders are not modelled. Their inputs are plain parameters.
- Foreign keys: the cascade deletes of child rows when a client is force-deleted, and the `client_id` existence checks, are not modelled (clients are only soft-deleted here).
- Bank entity and account `create`, `update` and `findById`, and account `delete`, are plain Eloquent calls and are not modelled. The `codigo_bcra` and `cbu` unique indexes are not modelled.
- The Receipt model's own scopes and accessors, and the totals the receipt and payment-order pages compute in the browser, are not modelled.
- Routes.Route: JavaScript `Object.keys` order is taken as the given entry order. Values are already strings. `$`-patterns inside replacement strings (`$&`, `$1`) and inherited `Object.prototype` names (such as `toString`) as route names are not modelled.
- StampedLastIsBalance (`CurrentAccount`): stated for the intended balance refresh. As written the refresh is discarded (see Findings), and the cached saldo stays at its stored value.
- AppendKeepsInvariant (`ClientLedger`): stated for the intended refresh, `ClientLedger.RefreshBalance`. As written the refresh is discarded, so the cached saldo falls out of step with the movements (see Findings).
- RemoveKeepsInvariant (`ClientLedger`): stated for the intended refresh. As written the refresh is discarded (see Findings).
- InsertMovement (`ClientLedger.Ledger`): applies the intended refresh. As written the client's saldo is left unchanged (see Findings).
- CreateMovement (`ClientLedger.Ledger`): applies the intended refresh. As written the client's saldo is left unchanged (see Findings).
- DeleteMovement (`ClientLedger.Ledger`): applies the intended refresh. As written the client's saldo is left unchanged (see Findings).
- BalanceInfoConsistent (`ClientLedger.Ledger`): holds under the store invariant the intended refresh keeps. As written `saldo_actual` is the client's stored saldo, while the totals follow the movements (see `ClientLedger.RefreshDiscardedExample`).
- DeleteGuardIsPendingCheck (`ClientLedger.Ledger`): holds under the store invariant the intended refresh keeps. As written the saldo guard sees the stored saldo, which the refresh never changes.
- MovimientoErrorIffBothZero (`MovementRequest`): a numeric string whose mantissa is not zero but whose float value underflows to 0 (such as `1e-400`) is taken as non-zero. Laravel's `TrimStrings` and `ConvertEmptyStringsToNull` middleware run before validation and are not modelled, so the inputs are the values the validator sees.
- EntitiesWithFiltersSpec (`Banks`): the collation is a parameter assumed to be a total preorder. Which collation the database uses, and the order of rows with equal keys, are not stated.
- ActiveEntitiesSpec (`Banks`): the collation is a parameter assumed to be a total preorder. The order of rows with equal nombre is not stated.
- AccountsWithFiltersSpec (`Banks`): the collation is a parameter assumed to be a total preorder. The order of rows with equal numero_cuenta is not stated.
- ActiveAccountsSpec (`Banks`): the collation is a parameter assumed to be a total preorder. The order of rows with equal numero_cuenta is not stated.
- ReceiptBook.CreateReceipt (`Receipts`): every item is taken to carry `descripcion`, `cantidad` and `precio_unitario`. An item missing one of them makes the source raise in the subtotal loop (or at the item insert) and roll back; the model does not capture that failure.
- ReceiptBook.UpdateReceipt (`Receipts`): every item is taken to carry `descripcion`, `cantidad` and `precio_unitario`. An item missing one of them makes the source raise and roll back; the model does not capture that failure.
- WithTotals (`PaymentOrders`): an update input carries every header field. `update($data)` leaves a column alone when its key was not sent, such as `detail` or `is_advance`; the model writes every header field from the input.
- IntVal (`Common`): models digit strings with an optional sign. Exponent and fraction forms, which PHP 7.1 and later read through a float, are not modelled.
- Strings are sequences of characters. UTF-16 length, multibyte `strlen`, and Unicode classes beyond the whitespace set of JavaScript's `\s` are not modelled.
- `forceDelete` and the observer's `restoring`/`restored`/`deleted`/`updated` hooks only log, so they have no model beyond RestoreClient.

## Findings

| source | as written | input that shows it | evidently intended | confidence | as-written member | corrected member |
|---|---|---|---|---|---|---|
| app/Models/Treasury/Client.php:108-111 | `updateBalance` writes `saldo` through `update([...])`, a mass assignment, and `saldo` is not in `$fillable` (lines 21-48). The write is dropped and the cached saldo never changes. | a client with saldo 0 receives its first movement, 100.00 debe | the client's saldo becomes 100.00 | high; not executed | ClientLedger.RefreshBalanceAsWritten, ClientLedger.RefreshDiscardedExample | ClientLedger.RefreshBalance, ClientLedger.AppendKeepsInvariant |
