# Produce-trading accounting core, in Dafny

This project models the accounting engine of a produce wholesaler's backend.
Trucks bring in batches (`IngresoLote`) of produce. Each batch line names a
supplier and a product, with kilograms, a kilograms-per-crate factor (a
"java" is a crate) and a cost quoted per KG or per JAVA. Sales (`Venta`) are
either cash (`CAJA`) or credit (`PEDIDO`). A credit sale adds its total to
the customer's debt, and payments reduce it.

The model covers:

- the two line calculators;
- the stock aggregator, which recomputes per-product intake and sales totals
  from the line tables and clamps availability at zero;
- the intake workflow;
- the sale create, update and delete workflows with their debt adjustments;
- the payment rule and the self-deletion guard;
- the sale endpoints' permission rules, response snapshot and listing;
- the batch response totals and the available-stock listing;
- the typed error taxonomy.

The database is an immutable `Store`:

- maps keyed by primary key for products, customers, users, batches and sales;
- flat sequences for the two line-item tables and the payments;
- the next value of each auto-increment key.

Each workflow is a function `Store -> Result<Store, AppError>`. On any error
it yields `Failure` and the caller keeps the old store, matching the
services, which commit only at the very end. Quantities, Python floats and
`Decimal`s alike, are exact `real`s. Python truthiness is explicit:
`IdTruthy` treats `None` and `0` as absent.

Modules, in dependency order:

- `Wrappers`: `Option`, `Result`, `Need`.
- `Text`: `strip`, `upper`, `str(int)`.
- `Errors`: the error taxonomy.
- `Domain`: the entities, the store, `Sum` and `Filter`.
- `Calculators`: the two line calculators.
- `Stock`: the stock aggregator.
- `Ingresos`: the intake workflow.
- `Ventas`: the sale workflows.
- `VentasRouter`: the sale endpoints' rules.
- `IngresosRouter`: the batch response and the stock listing.
- `Ledger`: payments and user deletion.

Decisions the code forces:

- **Stock within one sale.** The session flushes automatically, so the stock
  query made for line *k* of a sale already sees lines 0..k-1 of the same
  sale. `BuildVentaItems` checks each line against the store with the
  earlier lines appended (`WithLines`). The stock check runs before the
  calculator's own checks on that line.
- **Update has no stock check.** `update_venta` replaces the lines without
  any stock check, and so does `UpdateVenta`.
- **Payments have no amount check.** The code checks no minimum amount for
  a payment (`create_payment`), and `CreatePayment` accepts any amount.
  Its clamp still keeps debts non-negative.
- **The list filter has two branches.** The code distinguishes only
  VENDEDOR from everyone else, so an INVENTOR gets the admin filters too.
- **Viewing is a separate rule.** Viewing a single sale restricts only
  VENDEDOR. Editing and deleting restrict everyone except ADMIN.
- **The debt snapshot is computed on every read.** A sale response
  recomputes it from the customer's current debt each time. After a payment,
  a credit sale's "previous debt" can therefore be negative
  (`VentasRouter.PaidOffSaleSnapshot`). `VentasRouter.CreatedSaleResponse`
  states what the response shows immediately after creation.

## Model

| member | source | states |
|---|---|---|
| Calculators.CalculateItemCosts | backend/services/ingreso_service.py:40-98 | checks fail in the order kg, factor, cost, mode, each naming its field; javas × factor gives back the kg; a KG price is scaled by the factor and a JAVA price kept; total = cost per java × javas = KG price × kg; all three results are positive |
| Calculators.ModeEquivalence | backend/tests/test_ingreso_service.py:12-38 | a KG price p and a JAVA price p·factor give identical results |
| Calculators.CalculateVentaItem | backend/services/venta_service.py:38-79 | checks fail in the order kg, factor, price; kg, factor and price are echoed; javas × factor = kg; the subtotal is exactly kg × price and positive |
| Calculators.CalculatorExamples | backend/tests/test_venta_service.py:13-48 | example on fixed inputs, not an all-input property: the repository's worked examples, including 33.33 × 15.50 = 516.615 |
| Stock.StockDisponibleKg | backend/services/stock_service.py:39-42 | never negative; intake − sold when intake ≥ sold, otherwise 0 |
| Stock.StockDisponibleJavas | backend/services/stock_service.py:44-47 | the same clamp on javas |
| Stock.CostoPromedio | backend/services/stock_service.py:113 | average × javas = total cost when javas > 0, otherwise 0 |
| Stock.GetStockByProduct | backend/services/stock_service.py:64-126 | exactly one entry per existing product, carrying its name and the per-product sums over the intake and sale lines |
| Stock.AvailableKg | backend/services/stock_service.py:39-42 | available kg of a product as the clamped difference of the two line sums |
| Stock.GetProductStock | backend/services/stock_service.py:129-148 | not-found exactly for an unknown product, otherwise that product's entry |
| Stock.ValidateStockDisponible | backend/services/stock_service.py:151-179 | passes exactly when the request is at most the available kg; the error carries name, available and requested |
| Stock.GetCostoPromedio | backend/services/stock_service.py:182-194 | fails exactly for an unknown product, with not-found for "Producto" and that id; otherwise the weighted average cost |
| Stock.ExactAvailablePasses | backend/services/stock_service.py:172 | requesting exactly the available kg passes |
| Stock.UntouchedProductIsZero | backend/services/stock_service.py:101-123 | a product with no lines gets all-zero totals |
| Stock.IngresoTotalsAppend | backend/services/stock_service.py:78-86 | intake sums split over concatenated line runs |
| Stock.VendidoTotalsAppend | backend/services/stock_service.py:89-96 | sales sums split over concatenated line runs |
| Stock.StockReadsOnlyItems | backend/services/stock_service.py:64-126 | the aggregate depends only on products and the two line tables |
| Stock.OversoldShowsZero | backend/tests/test_stock_service.py:10-42 | example on fixed inputs, not an all-input property: the repository's clamp examples (70 kg / 3.5 javas, and 0 once oversold) |
| Ingresos.BuildIngresoItem | backend/services/ingreso_service.py:148-182 | per-line checks in order: blank supplier, falsy product id, unknown product, then the calculator's; the stored line has the stripped supplier, the product's factor when none is given, and JAVA as the default mode |
| Ingresos.BuildAll | backend/services/ingreso_service.py:148-183 | the per-line loop: success exactly when every index builds, with the results in index order; otherwise the error of the first index that fails |
| Ingresos.BuildIngresoItems | backend/services/ingreso_service.py:148-183 | on success, one stored line per input, in input order, each the build of its own input |
| Ingresos.BuildIngresoItemsOutcome | backend/services/ingreso_service.py:148-183 | the build succeeds exactly when every line builds; otherwise it fails with the error of the first failing line |
| Ingresos.CreateIngresoLote | backend/services/ingreso_service.py:131-187 | rejects a plate shorter than 3 after stripping, then an empty batch; on success one line is appended per input |
| Ingresos.CreateIngresoLoteOutcome | backend/services/ingreso_service.py:140-183 | past the plate and emptiness checks, the batch is stored exactly when every line builds; otherwise the error is that of the first failing line |
| Ingresos.CreateIngresoLoteStores | backend/services/ingreso_service.py:140-187 | the stripped upper-cased plate is stored under the next key; one line per input is appended after the old lines, in input order, each stored as its input describes; nothing else changes |
| Ingresos.CreateIngresoLotePreservesValid | backend/services/ingreso_service.py:140-183 | batch keys and line foreign keys stay below the key sequence |
| Ingresos.NewLoteItems | backend/services/ingreso_service.py:173-183 | the new batch's lines are exactly the lines appended, one per input, each stored as its input describes |
| Ingresos.CreateIngresoLoteAddsStock | backend/services/ingreso_service.py:173-187 | a batch raises each product's intake totals by its own lines and leaves sales totals alone |
| Ventas.ChargeDebt | backend/services/venta_service.py:186-187 | only the named existing customer's debt grows, by the amount |
| Ventas.ReverseDebt | backend/services/venta_service.py:302-305 | only the named customer's debt drops, floored at zero |
| Ventas.ChargeThenReverseRestores | backend/services/venta_service.py:186-187 | reversing a charge on a non-negative debt restores the customers exactly |
| Ventas.BuildVentaItem | backend/services/venta_service.py:143-177 | per-line checks in order: falsy product id, unknown product, stock, then the calculator's; the stored line is the calculator's result at the product's factor |
| Ventas.BuildVentaItems | backend/services/venta_service.py:143-180 | one line per input in order, each built against the store holding the earlier lines of the same sale |
| Ventas.BuildVentaItemsAccepts | backend/services/venta_service.py:143-180 | lines that each build against their predecessors are exactly the build's result |
| Ventas.BuildVentaItemsFailure | backend/services/venta_service.py:143-180 | a failed build has a built prefix whose next line fails with the build's error |
| Ventas.BuildVentaItemsOutcome | backend/services/venta_service.py:143-180 | the build succeeds exactly with the lines that each build against their predecessors; otherwise the error is that of the first line that does not build |
| Ventas.BuiltLines | backend/services/venta_service.py:143-180 | every built line belongs to the sale, is priced by the calculator, is positive, and fits the stock left by the lines before it |
| Ventas.OversizedLineAborts | backend/services/venta_service.py:157-158 | a line exceeding the stock left by the earlier lines aborts the build with the insufficient-stock error |
| Ventas.CreateVenta | backend/services/venta_service.py:112-190 | PEDIDO without a truthy customer, then no lines, then an unknown customer, fail in that order; on success one line is appended per input |
| Ventas.CreateVentaOutcome | backend/services/venta_service.py:143-190 | past the early checks, the sale is recorded with exactly the lines that each build against the earlier ones; otherwise the error is that of the first failing line |
| Ventas.CreateVentaStockShortfall | backend/services/venta_service.py:155-158 | a first line asking for more kilograms than the stock holds aborts the sale with the insufficient-stock error, naming the product, the stock and the request |
| Ventas.CreateVentaRecordsSale | backend/services/venta_service.py:128-190 | on success the lines are appended in input order, each within the stock left by the lines before it, and a header under the next key carries the total of the subtotals; a credit sale charges that total, a cash sale changes no debt, nothing else changes |
| Ventas.DeleteVenta | backend/services/venta_service.py:285-312 | unknown sale is not-found; the sale and its lines go; a credit sale's total comes off its customer's debt, floored at zero; nothing else changes |
| Ventas.UpdateVenta | backend/services/venta_service.py:315-412 | unknown sale, no lines, PEDIDO without a customer, unknown new customer fail in that order; lines replaced without a stock check; type kept; old total reversed then new total charged to the possibly new customer |
| Ventas.UpdateVentaOutcome | backend/services/venta_service.py:365-411 | past the early checks, the update succeeds exactly when every new line builds, storing them after the sale's other lines; otherwise the error is that of the first failing line |
| Ventas.CreateVentaPreservesValid | backend/services/venta_service.py:128-190 | sale keys and line foreign keys stay below the key sequence |
| Ventas.CreateVentaKeepsDebtsNonNegative | backend/services/venta_service.py:185-187 | no sale leaves a negative debt |
| Ventas.DeleteVentaKeepsDebtsNonNegative | backend/services/venta_service.py:301-305 | deleting never leaves a negative debt |
| Ventas.UpdateVentaKeepsDebtsNonNegative | backend/services/venta_service.py:346-409 | editing never leaves a negative debt |
| Ventas.UpdateVentaMovesDebt | backend/services/venta_service.py:345-409 | same customer: debt becomes max(0, d − old) + new; changed customer: old one loses the old total (floored), new one gains the new total; others untouched |
| Ventas.CreateVentaNeverOversells | backend/services/venta_service.py:157-158 | a sale never pushes a product's sold kg above its intake kg |
| Ventas.PrefixWithinStock | backend/services/venta_service.py:143-158 | each prefix of a committed sale's lines keeps sold kg within intake kg |
| Ventas.CreateThenDeleteRestores | backend/services/venta_service.py:285-309 | creating then deleting a sale restores every table and every non-negative debt; only the key sequence has moved |
| VentasRouter.FormatItem | backend/routers/ventas.py:33-42 | the stored line's fields, with the product's name exactly when the product exists |
| VentasRouter.FormatVentaResponse | backend/routers/ventas.py:29-65 | the sale's own fields (customer key, print flag), the customer's name when the customer exists, the seller's username when the user exists; one formatted response line per stored line of the sale, in order; a snapshot exactly for a credit sale whose customer exists, with new debt = current debt and previous debt = new − total |
| VentasRouter.CreatedSaleResponse | backend/routers/ventas.py:44-50 | right after creation the lines are the new ones, and a credit sale shows the customer's old debt as previous and old + total as new; a cash sale shows neither |
| VentasRouter.PaidOffSaleSnapshot | backend/routers/ventas.py:44-50 | once the customer pays off their whole debt, a credit sale of theirs shows minus its total as previous debt and 0 as new debt |
| VentasRouter.GetVentaEndpoint | backend/routers/ventas.py:174-191 | not-found first; then forbidden exactly for a VENDEDOR whose sale is not both own and today |
| VentasRouter.UpdateVentaEndpoint | backend/routers/ventas.py:194-238 | not-found first; forbidden unless admin or (today and own); otherwise exactly the service's outcome, a service error passed through unchanged |
| VentasRouter.DeleteVentaEndpoint | backend/routers/ventas.py:241-270 | not-found first; succeeds exactly for admin or (today and own); otherwise the delete-specific 403 |
| VentasRouter.ModifierMayView | backend/routers/ventas.py:183-189 | whoever may edit may view and delete, and edit and delete are refused for the same callers |
| VentasRouter.SellerIgnoresFilters | backend/routers/ventas.py:135-143 | a VENDEDOR's selection does not depend on any query parameter |
| VentasRouter.DatePrecedence | backend/routers/ventas.py:145-157 | an exact date overrides the range; a full range overrides the single bounds |
| VentasRouter.InsertByDate | backend/routers/ventas.py:165 | inserting keeps the run newest first, adds exactly the one key |
| VentasRouter.InsertKeepsDistinct | backend/routers/ventas.py:165 | inserting an absent key keeps keys distinct |
| VentasRouter.SelectVentas | backend/routers/ventas.py:135-165 | exactly the sales passing the role's filter, each once, newest first |
| VentasRouter.Window | backend/routers/ventas.py:165 | OFFSET/LIMIT: at most limit entries starting at skip, none past the end |
| VentasRouter.ListVentas | backend/routers/ventas.py:107-170 | the page is the `skip`/`limit` window of a newest-first enumeration of exactly the selected sales, each formatted; so at most limit responses, distinct, newest first |
| IngresosRouter.FormatIngresoItem | backend/routers/ingresos.py:37-47 | the stored line's fields, with the product's name exactly when the product exists |
| IngresosRouter.FormatLoteResponse | backend/routers/ingresos.py:29-60 | one response line per batch line in order; totals are the sums of kg, javas and cost over the batch's lines, 0 for an empty batch |
| IngresosRouter.NewLoteTotals | backend/routers/ingresos.py:31-50 | a new batch reports one line per requested line and the requested kilograms as its total |
| IngresosRouter.GetStock | backend/routers/ingresos.py:112-131 | one row per product with its available javas, intake − sold or 0 once oversold |
| IngresosRouter.NewLoteRaisesListedJavas | backend/routers/ingresos.py:122-131 | a new batch raises a not-oversold product's listed javas by the javas it brought |
| Ledger.CreatePayment | backend/main.py:397-425 | unknown customer is not-found and nothing changes; otherwise the payment is recorded under the next key and only that customer's debt changes, to max(0, debt − amount) |
| Ledger.PaymentKeepsDebtsNonNegative | backend/main.py:418-421 | any payment amount leaves every debt non-negative |
| Ledger.PaymentPreservesValid | backend/main.py:410-416 | payment keys stay below the key sequence |
| Ledger.PaymentUndoesCharge | backend/main.py:418-421 | paying a credit sale's total returns the customers to where they were before the sale |
| Ledger.DeleteUser | backend/main.py:278-291 | self-deletion is refused with 400 before anything else; an unknown user is 404; otherwise only that user is removed |
| Ledger.DeleteUserSparesActor | backend/main.py:281-287 | the acting user's account survives, and a repeated deletion is not-found |
| Errors.Code | backend/utils/exceptions.py:43-134 | each error kind has its own code |
| Errors.Status | backend/utils/exceptions.py:43-134 | 404, 422, 400, 401, 403, 409, 400 by kind |
| Errors.Message | backend/utils/exceptions.py:46-54 | a not-found message includes the identifier exactly when it is truthy |
| Errors.Details | backend/utils/exceptions.py:57-134 | field only when given; stock carries product, available and requested; duplicate carries resource, field, value; rule only when given; otherwise empty |
| Errors.ToDict | backend/utils/exceptions.py:29-40 | the body carries the kind's code, message and details; its details are empty exactly for not-found, authentication and authorization errors and for a validation or business-rule error without a truthy field or rule (`details or {}`) |
| Errors.NotFoundZeroIdOmitted | backend/utils/exceptions.py:48-49 | an identifier of 0 is omitted like a missing one |
| Errors.NotFoundMessagesDistinguishIds | backend/utils/exceptions.py:48-49 | different truthy identifiers give different messages |
| Text.Strip | backend/services/ingreso_service.py:132 | the result is the input without leading and trailing whitespace, and neither end of it is whitespace |
| Text.StripIdempotent | backend/services/ingreso_service.py:141 | stripping twice is stripping once |
| Text.Upper | backend/services/ingreso_service.py:141 | each ASCII and à–þ letter upper-cased, every other character kept, no such lower-case letter left |
| Text.UpperIdempotent | backend/services/ingreso_service.py:141 | upper-casing twice is upper-casing once |
| Text.StripUpper | backend/services/ingreso_service.py:141 | stripping and upper-casing commute |
| Text.StripUpperCommute | backend/services/ingreso_service.py:141 | the stored plate is the same when upper-cased first, and is itself stripped |
| Text.NatToStringRoundTrip | backend/utils/exceptions.py:49 | the decimal rendering of an identifier reads back as the identifier |
| Text.IntToStringInjective | backend/utils/exceptions.py:49 | distinct integers render differently |

## Left out

- HTTP and framework plumbing, authentication and role resolution, the database engine and sessions, settings, and logging are not modelled. The acting user's key and role are plain inputs (`VentasRouter.Actor`).
- The clock and the time zone are not modelled. "Now" is a `Timestamp` parameter and "today" is a day number parameter. The routers compare against the server's date, while the services stamp sales in Lima time. The model keeps these as two independent inputs.
- Presentation rounding (`round(x, 2)` in the responses and in `to_dict`) and IEEE float behaviour are left out. All quantities are exact reals.
- Numeric column precision is not modelled. Amounts stored as `Numeric(10, 2)` are not rounded on storage.
- Errors.Message: the figures in the insufficient-stock message are float-formatted with two decimals, so only its product part is modelled. The figures themselves are in `Details`.
- Text.Upper: upper-cases ASCII a–z and à–þ (except ÷) only. ÿ, µ and ß stay unchanged, although Python maps them outside Latin-1 or to two characters ("SS"), and other scripts are not mapped. Python's `upper` can therefore change a string's length where the model's cannot.
- Line-item primary keys and the `id` field of response lines are not modelled. Lines are identified by their position in the table.
- VentasRouter.UpdateVentaEndpoint: the response is built from the lines just stored. In the code, the sale reloaded after the commit may still carry the item collection loaded before the update (`expire_on_commit=False`, and the reload does not repopulate the collection). If so, the response shows the old lines next to the new total. The model does not reproduce this session-cache effect.
- VentasRouter.SelectVentas: the relative order of sales with the same timestamp is left unconstrained, because SQL does not fix it either.
- IngresosRouter.GetStock: the rows are returned keyed by product, not as a list. The list order of the dictionary's values is not modelled.
- Ledger.DeleteUser: removes a user even when sales still reference that user. In the code, `User.ventas` has no delete cascade (backend/models.py:24) and `Venta.user_id` is not nullable (backend/models.py:97), so deleting a user who has sales most likely fails on that constraint and the user stays. The model does not reproduce this database integrity failure.
- Other foreign-key integrity errors from the database are not modelled. The formatted response shows `None` for a missing product, customer or user name.
- The payment date, the unused `date` argument of the intake workflow, and the unused date parameters of the service-level sale listing are not modelled.
- The print-flag endpoint (`mark_as_printed`), the lote listing, plain CRUD of products, customers and users beyond `delete_user`, and the inventory snapshots are not modelled. They are persistence with no rules.
- Concurrency is not modelled. The check-then-act gap between the stock check and the commit, and locking, are out of scope.
