# Medusa payment lifecycle, module loader and docblock kinds registry, in Dafny

This project models three pieces of the Medusa e-commerce backend and proves
properties about them.

1. **The payment module's lifecycle.** A payment collection holds payment
   sessions. Authorizing a session produces exactly one payment. Captures
   and refunds are then appended to that payment as ledger entries. A
   payment can be canceled and a collection completed. The module's state
   is a `Store`: id-keyed maps of collections, sessions and payments, plus
   the insertion order of the collections. Every service operation is a
   pure function that returns either the service's error or the new store
   together with the record the service hands back (`PaymentModel`,
   `PaymentService`). `Valid` is the link structure of the store:
   - every record sits under its own id;
   - every session and payment points at a stored collection that lists it;
   - a session is authorized exactly when it has produced a payment;
   - a payment keeps its session's amount and currency.

   `PaymentInvariants` proves that every operation keeps `Valid`.
   `PaymentScenarios` proves properties that span several calls: the
   end-to-end flow, idempotent authorization, and what listing shows after
   creation and deletion.

   The payment service's implementation is not part of this model. Its
   behaviour is taken from the assertions of the module's integration test.
2. **The application loader's module configuration** (`MedusaAppLoader`):
   - `mergeDefaultModules`;
   - the loop that gives legacy modules default database options;
   - the medusa_v2 required-module check and its error message;
   - the container registrations, including the fill that registers
     unresolved modules as `undefined`.

   The modules SDK's definitions table (`ModulesDefinition`) and its
   package names are parameters. `defs` lists the table's definitions in
   enumeration order. The table is keyed by each definition's own `key`.
3. **The docblock generator's kinds registry** (`KindsRegistry`). It
   selects the first registered generator that accepts a node. If none
   does, it falls back to the default generator, but only when that one
   accepts. What a generator accepts is an abstract `isAllowed` function.

Results and optional values use the small `Results` module.

Decisions the source leaves open:
- **Fresh ids are parameters.** Id generation belongs to the persistence
  layer. An id that is already stored is refused with `DuplicateId`, as the
  primary key would be. That message's wording is not taken from the source.
- **Validation order.** When several required fields of a new collection
  are missing, they are checked in the order `currency_code`, `amount`,
  `region_id`. The test shows only one missing field at a time.
- **Session updates.** `updatePaymentSession` takes both the amount and the
  currency from the new provider context. It is refused (`NotPending`) for
  a session that is not pending. This is the model's own choice: it keeps
  an authorized session and its payment in agreement. The test only
  updates a pending session, and its amount is the same as before.
- **Repeated authorization.** Authorizing an already-authorized session
  returns the payment it produced and changes nothing. This is the model's
  own choice, which keeps one payment per session; the test authorizes
  each session only once.
- **Values the SDK defines.** The module keys `productService` and
  `pricingService`, and the registration names `remoteLink` and
  `remoteQuery`, come from the modules SDK and utilities, which are not
  part of this model.

## Model

| member | source | states |
|---|---|---|
| PaymentService.CreateCollection | packages/payment/integration-tests/__tests__/services/payment-module/index.spec.ts:152-209 | a missing currency_code, amount or region_id fails with MissingField naming that field and stores nothing; otherwise the new collection is not_paid, has no providers, sessions or payments, keeps the given currency, amount and region, and is the only change to the store |
| PaymentService.CreateCollections | packages/payment/integration-tests/__tests__/services/payment-module/index.spec.ts:152-209 | a batch succeeds exactly when every entry has currency_code, amount and region_id, no id is taken and no id repeats; then the store gains exactly one not_paid collection per entry under its id, with the entry's currency, amount and region, no providers, sessions or payments and not completed, returned in entry order and appended to the insertion order, and nothing else changes; a first entry lacking a field fails with MissingField naming the first missing field |
| PaymentService.BatchAcceptedCons | packages/payment/integration-tests/__tests__/services/payment-module/index.spec.ts:152-209 | a batch is acceptable exactly when its first entry is complete with a free id and the rest is acceptable once that id is taken |
| PaymentService.BatchStoredCons | packages/payment/integration-tests/__tests__/services/payment-module/index.spec.ts:193-209 | storing the first entry and then the rest of the batch stores the whole batch |
| PaymentService.Retrieve | packages/payment/integration-tests/__tests__/services/payment-module/index.spec.ts:231-253 | retrieval succeeds exactly for stored ids and returns the stored record; an unknown id fails with "PaymentCollection with id: <id> was not found" |
| PaymentService.List | packages/payment/integration-tests/__tests__/services/payment-module/index.spec.ts:287-311 | every listed collection matches the filter (for example the region) and is stored; in a store whose insertion order is exact, every stored matching collection is listed |
| PaymentService.ListAndCount | packages/payment/integration-tests/__tests__/services/payment-module/index.spec.ts:257-285 | every listed collection matches the filter and is stored; the count equals the number of collections returned, and (with an exact insertion order) the number of stored collections that match the filter, every one of which is in the listing |
| PaymentService.ListFromCount | packages/payment/integration-tests/__tests__/services/payment-module/index.spec.ts:257-261 | over an insertion order without repeats, the listing has exactly one entry per stored matching id |
| PaymentService.UpdateCollection | packages/payment/integration-tests/__tests__/services/payment-module/index.spec.ts:314-333 | each field present in the patch takes the new value, every other field of the collection keeps its value, nothing else in the store changes; an unknown id fails with NotFound |
| PaymentService.CompleteCollection | packages/payment/integration-tests/__tests__/services/payment-module/index.spec.ts:336-350 | completing sets completed_at and changes nothing else; an unknown id fails with NotFound |
| PaymentService.DeleteCollections | packages/payment/integration-tests/__tests__/services/payment-module/index.spec.ts:213-228 | a collection survives exactly when its id is not deleted; its sessions and payments go with it; surviving records are unchanged; the insertion order drops exactly the deleted ids |
| PaymentService.Without | packages/payment/integration-tests/__tests__/services/payment-module/index.spec.ts:221-227 | removing ids from the insertion order keeps exactly the other ids and introduces no repeats |
| PaymentService.CreateSession | packages/payment/integration-tests/__tests__/services/payment-module/index.spec.ts:382-420 | the new session is pending, not authorized and has no payment, takes amount and currency from the provider context, is appended to its collection's sessions, and the collection's status and everything else stay; an unknown collection fails with NotFound |
| PaymentService.UpdateSession | packages/payment/integration-tests/__tests__/services/payment-module/index.spec.ts:423-461 | a pending session takes the new context's currency and amount and stays pending, nothing else changes; it succeeds exactly for stored pending sessions; an unknown session fails with NotFound and any other session with NotPending |
| PaymentService.Authorize | packages/payment/integration-tests/__tests__/services/payment-module/index.spec.ts:464-539 | a pending session becomes authorized with authorized_at set and produces one new payment with amount = authorized_amount = session amount, the session's currency and provider, empty captures and refunds, no captured_at or canceled_at and no cart, order or customer, linked to the session and the collection; in a valid store an authorized session always succeeds, returning its payment and changing nothing |
| PaymentService.UpdatePayment | packages/payment/integration-tests/__tests__/services/payment-module/index.spec.ts:571-585 | each reference present in the patch (cart, order, order edit, customer) takes the new value, every other field keeps its value; an unknown id fails with NotFound |
| PaymentService.Capture | packages/payment/integration-tests/__tests__/services/payment-module/index.spec.ts:587-611 | exactly one capture entry with the requested amount and actor is appended, earlier entries and every other field (amount included) stay |
| PaymentService.Refund | packages/payment/integration-tests/__tests__/services/payment-module/index.spec.ts:662-688 | exactly one refund entry with the requested amount and actor is appended, earlier entries and every other field (amount included) stay |
| PaymentService.Cancel | packages/payment/integration-tests/__tests__/services/payment-module/index.spec.ts:709-719 | canceling sets canceled_at and changes nothing else; an unknown id fails with NotFound |
| PaymentInvariants.CreateCollectionPreservesValid | packages/payment/integration-tests/__tests__/services/payment-module/index.spec.ts:193-209 | creating a collection keeps every link of the store intact |
| PaymentInvariants.CreateCollectionsPreservesValid | packages/payment/integration-tests/__tests__/services/payment-module/index.spec.ts:153-159 | a batch creation keeps every link of the store intact |
| PaymentInvariants.UpdateCollectionPreservesValid | packages/payment/integration-tests/__tests__/services/payment-module/index.spec.ts:314-333 | updating a collection keeps every link of the store intact |
| PaymentInvariants.CompleteCollectionPreservesValid | packages/payment/integration-tests/__tests__/services/payment-module/index.spec.ts:336-350 | completing a collection keeps every link of the store intact |
| PaymentInvariants.DeleteCollectionsPreservesValid | packages/payment/integration-tests/__tests__/services/payment-module/index.spec.ts:213-228 | deletion cascades far enough that no session or payment is left pointing at a removed record |
| PaymentInvariants.CreateSessionPreservesValid | packages/payment/integration-tests/__tests__/services/payment-module/index.spec.ts:382-420 | creating a session keeps every link of the store intact |
| PaymentInvariants.UpdateSessionPreservesValid | packages/payment/integration-tests/__tests__/services/payment-module/index.spec.ts:423-461 | updating a session keeps every payment's amount and currency equal to its session's |
| PaymentInvariants.AuthorizePreservesValid | packages/payment/integration-tests/__tests__/services/payment-module/index.spec.ts:506-536 | after authorization the payment, its session and its collection point at each other |
| PaymentInvariants.AuthorizedStoreValid | packages/payment/integration-tests/__tests__/services/payment-module/index.spec.ts:506-536 | the store built from a pending session, its new payment and the extended collection is valid |
| PaymentInvariants.UpdatePaymentPreservesValid | packages/payment/integration-tests/__tests__/services/payment-module/index.spec.ts:571-585 | updating a payment's references keeps every link of the store intact |
| PaymentInvariants.CapturePreservesValid | packages/payment/integration-tests/__tests__/services/payment-module/index.spec.ts:587-611 | a capture keeps every link of the store intact |
| PaymentInvariants.RefundPreservesValid | packages/payment/integration-tests/__tests__/services/payment-module/index.spec.ts:662-688 | a refund keeps every link of the store intact |
| PaymentInvariants.CancelPreservesValid | packages/payment/integration-tests/__tests__/services/payment-module/index.spec.ts:709-719 | a cancellation keeps every link of the store intact |
| PaymentInvariants.PaymentEditPreservesValid | packages/payment/integration-tests/__tests__/services/payment-module/index.spec.ts:571-611 | replacing a payment by one with the same id, collection, session, authorized amount and currency keeps the store valid |
| PaymentScenarios.FullFlowSettlesOneCapture | packages/payment/integration-tests/__tests__/services/payment-module/index.spec.ts:43-120 | create (USD 200, reg_123), open a system session for 200, authorize, capture 200 and complete: the collection (USD, 200, reg_123) is completed with one authorized system session of USD 200 and one system payment of USD 200 whose captures are exactly one entry of 200 |
| PaymentScenarios.AuthorizeUsesSessionAmount | packages/payment/integration-tests/__tests__/services/payment-module/index.spec.ts:465-539 | authorizing a 100 session of a 200 collection yields a system payment of usd with amount and authorized_amount 100, empty ledgers, no captured_at or canceled_at and no cart, order, order edit or customer, linked to both; the session is authorized with authorized_at set, still usd 100 from system, and points at the payment; the collection keeps amount 200 |
| PaymentScenarios.SessionCreateThenUpdate | packages/payment/integration-tests/__tests__/services/payment-module/index.spec.ts:383-460 | a new session is pending, unauthorized, usd 200 from system and listed by its collection, which stays not_paid; updating it to eur leaves it pending with currency eur and amount 200 |
| PaymentScenarios.AuthorizeIsIdempotent | packages/payment/integration-tests/__tests__/services/payment-module/index.spec.ts:486-538 | in a valid store, authorizing the same session again, with any fresh id, returns the same payment and the same store |
| PaymentScenarios.AuthorizeAddsOnePayment | packages/payment/integration-tests/__tests__/services/payment-module/index.spec.ts:486-538 | authorizing a pending session adds exactly one payment id to the store |
| PaymentScenarios.MissingFieldMessage | packages/payment/integration-tests/__tests__/services/payment-module/index.spec.ts:152-190 | a collection missing a required field fails with "Value for PaymentCollection.<field> is required, 'undefined' found" naming the first missing field |
| PaymentScenarios.ListByIdFindsOne | packages/payment/integration-tests/__tests__/services/payment-module/index.spec.ts:214-219 | in a valid store, listing by one stored id returns exactly that collection |
| PaymentScenarios.DeletedCollectionNotListed | packages/payment/integration-tests/__tests__/services/payment-module/index.spec.ts:221-227 | after deleting an id, listing by that id returns nothing |
| MedusaAppLoader.FirstDefault | packages/medusa/src/loaders/medusa-app.ts:30-34 | the definition found for a key has a truthy default package and that key; none is found only when no such definition exists |
| MedusaAppLoader.ApplyDefaults | packages/medusa/src/loaders/medusa-app.ts:38-40 | the keys become the input keys plus the default keys; a value that is not null or undefined stays; an absent or nullish key with a default takes the first default declaration offered for it; keys without a default stay |
| MedusaAppLoader.ApplyDefaultsStep | packages/medusa/src/loaders/medusa-app.ts:38-40 | one `??=` step followed by the remaining steps meets the contract of the whole loop |
| MedusaAppLoader.MergeDefaultModules | packages/medusa/src/loaders/medusa-app.ts:27-43 | every input key is kept; a value that is not null or undefined stays; a key without a default stays as it was, even when nullish; a key that is absent or nullish and has a default takes the first default declaration offered for it; no other keys appear; an undefined input yields exactly the default declarations |
| MedusaAppLoader.Lookup | packages/medusa/src/loaders/medusa-app.ts:78 | the definition found for a key has that key; none is found only when no definition has it |
| MedusaAppLoader.WithLegacyOptions | packages/medusa/src/loaders/medusa-app.ts:145-161 | only a legacy module's object value changes; existing options are never overwritten; missing options become the postgres settings built from the project's database url, extra, schema and logging |
| MedusaAppLoader.ApplyLegacyOptions | packages/medusa/src/loaders/medusa-app.ts:143-162 | the keys stay the same; every value is the legacy step applied to it; a value changes only if it is a legacy module's object without options |
| MedusaAppLoader.PrepareModulesConfig | packages/medusa/src/loaders/medusa-app.ts:141-162 | the configuration handed to the runtime has the merged keys and every default module set; every value is the merged value after the legacy step, so a non-legacy key keeps its merged value and a legacy object without options receives the postgres settings |
| MedusaAppLoader.MissingKeys | packages/medusa/src/loaders/medusa-app.ts:178-186 | exactly the required keys that are not installed, never more than were required |
| MedusaAppLoader.MissingKeysAppend | packages/medusa/src/loaders/medusa-app.ts:178-186 | extending the required list by one key extends the missing list by that key exactly when it is not installed |
| MedusaAppLoader.MissingPackages | packages/medusa/src/loaders/medusa-app.ts:175-186 | the collected names are, in required order, the package name of each missing key, or the key itself when it has no package name |
| MedusaAppLoader.CheckRequiredModules | packages/medusa/src/loaders/medusa-app.ts:173-195 | with the flag on, loading fails exactly when the product or pricing module is not installed, with the medusa_v2 message listing the missing package names joined by ", "; with the flag off it never fails |
| MedusaAppLoader.RegisterLoaded | packages/medusa/src/loaders/medusa-app.ts:210-216 | every loaded module's registration name is registered; a module not followed by another under the same name leaves its own service there (the last registration wins); registrations under other names stay |
| MedusaAppLoader.RegisterLoadedStep | packages/medusa/src/loaders/medusa-app.ts:210-216 | registering the first module and then the rest registers every name of the list with a resolved value and keeps registrations under other names |
| MedusaAppLoader.RegisterLoadedLast | packages/medusa/src/loaders/medusa-app.ts:210-216 | when no later module uses the same name, a module's own service is what stays registered under its name |
| MedusaAppLoader.RegisterUnresolved | packages/medusa/src/loaders/medusa-app.ts:218-224 | afterwards every definition's registration name is registered; existing registrations are never replaced; the new ones are undefined |
| MedusaAppLoader.RegisterApp | packages/medusa/src/loaders/medusa-app.ts:201-224 | link and query get their values and each loaded module the service registered last under its name, every definition's registration name is present, untouched names keep their registration and the remaining new names are undefined |
| MedusaAppLoader.LoadMedusaApp | packages/medusa/src/loaders/medusa-app.ts:107-227 | loading fails exactly under the flag with a required module missing; the returned configuration is the merged one after the legacy step; without registration the container only gains undefined link and query; with registration each loaded module's service is registered under its name, every definition's name is present and existing registrations not overridden by the app stay |
| KindsRegistry.FindIndex | docs-util/packages/docblock-generator/src/classes/kinds/registry.ts:40 | the index found is that of the first generator accepting the node; none is found only when no generator accepts |
| KindsRegistry.GetKindGenerator | docs-util/packages/docblock-generator/src/classes/kinds/registry.ts:22-45 | any returned generator accepts the node; when a registered generator accepts, a registered one is returned and never one later in the order Oas, ReactHooks, Function, SourceFile, DTOProperty, nor one after an accepting one; when none accepts, the default generator is returned if it accepts and nothing otherwise |
| KindsRegistry.HasGenerator | docs-util/packages/docblock-generator/src/classes/kinds/registry.ts:53-55 | holds exactly when a generator is returned, which is exactly when some registered or the default generator accepts the node |

## Left out

- Capture ceilings, double capture, capture after cancel, refunds greater than the captured amount, and cancel after capture are not modelled. Their tests are commented out pending the totals calculations, so the source does not yet promise these rules.
- PaymentService.Authorize: never recomputes the collection's status or authorized amount, which stay as they were. The value intended after authorization ("authorized") is still a TODO in the test, so it is not promised here.
- Derived totals are not modelled: captured and refunded amounts, and the collection's authorized amount and status. `captured_at` is never set by a capture for the same reason.
- The payment provider is an authorization that always succeeds. A provider failure (session status `error`), provider-opaque `data` blobs and the remaining provider-context fields (customer, billing address, email, resource id) are not modelled.
- Timestamps (`authorized_at`, `completed_at`, `canceled_at`, `captured_at`) are modelled only as set or unset. Amounts are naturals rather than big numbers.
- Ledger entries carry no id or creation time.
- Soft deletion (`deleted_at`), eager loading of relations on retrieval, and `select` projections are not modelled. Retrieval returns the collection with the ids of its sessions and payments.
- Per-operation isolation contexts (transaction and request ids), concurrency and the persistence layer are not modelled.
- MedusaAppLoader.MergeDefaultModules: the model is purely functional, so it does not model that the legacy loop writes `options` into the very declaration objects shared with the caller's configuration and with the definitions table (the copy in the source is shallow).
- MedusaAppLoader.LoadMedusaApp: the module runtime (`MedusaApp`, `MedusaAppMigrateUp`), the container's other registrations (database connection, logger) and the awilix calls are foreign. They appear as parameters (the runtime's output and the set of installed modules) or are left out. `migrateMedusaApp` is modelled only through `PrepareModulesConfig`, which is shared with the loader.
- MedusaAppLoader.LoadMedusaApp: on the error path the result carries only the message. The container's undefined link and query registrations and the runtime's start-up, which happen before the throw, are not reported.
- KindsRegistry.GetKindGenerator: generators are identified by kind; their constructor options and docblock generation are not modelled.
