# stockflask invoicing core in Dafny

A model of the invoicing and catalog rules of the stockflask Flask application (`app.py`).
The rules live inside the HTTP handlers there. Here they are pure state transitions over an
immutable `Store`, which holds one sequence per table: clients, products, price lists,
invoices and invoice lines.

- `importar_excel` is `Reconcile.Import`. It is a fold over already-parsed spreadsheet rows.
  Each row's code is normalised with Python's `strip()`, and blank and `"nan"` codes are skipped.
  The row is upserted by code into the *first* product carrying it, since codes are not unique.
  Created and updated rows are counted. The fold commits once; any cell `float` rejects means
  nothing is committed.
- `buscar_producto` is `Catalog.FindByCode`: the first match, or not-found.
- `crear_factura` is `Invoicing.CreateInvoice`. It does the following:
  - it validates the client id and the item list;
  - it derives the number from the suffix of the invoice with the highest id
    (`"0001-"` + the suffix plus one, zero-padded to at least 8 digits);
  - it builds a line for every item whose product exists, so unknown products are dropped.
    Quantity defaults to 1 and price to the product's `precio_1`;
  - it commits the invoice with the sum of its subtotals as total.
- `limpiar_datos` is `Admin.Reset`: every table is emptied, then the demo client `"601"` is added.

Modules, leaf first:

- `Wrappers`: `Option`, `Result`.
- `Text`: `str.strip()` and `[:n]`.
- `Records`: entities, the `Store`, SQLite's next-rowid rule.
- `Numbering`: format and parse invoice numbers.
- `Catalog`: lookups and the upsert.
- `Sequences`: two generic splitting lemmas.
- `Reconcile`: the import.
- `Invoicing`: invoice creation.
- `Admin`: the reset.
- `Invariants`: store-wide invariants and their preservation.

Money and quantities are exact `real`s. A primary key is SQLite's rowid: one more than the
largest key in the table, or 1 for an empty table.

`Invariants.Valid` holds after a reset, and both the import and invoice creation preserve it.
It consists of these parts:

- keys increase in every table;
- invoice *k* carries number `FormatNumber(k+1)`;
- every line has subtotal = quantity × price and points at an existing invoice and product;
- every invoice total is the sum of its lines.

From `Valid` it follows that numbers run 1, 2, …, N, are pairwise distinct, and that the next
one is N+1. The first number after a reset is `"0001-00000001"`.

Behaviour of the code worth knowing:

- A non-numeric cell in COSTO or PRECIO_1..4 is not read as 0. `float` raises, the handler
  answers with an error, and nothing is committed (`Reconcile.ImportFailsAtFirstBadRow`).
- The invoice's client id is only tested for truthiness. Nothing checks that the client exists.
- An empty feed is not rejected: it imports nothing and reports zeros.
- Invoice numbering takes no lock. Uniqueness rests on the unique constraint on `numero`, which
  is modelled as the `DuplicateNumber` error. Under `Valid` it cannot occur
  (`Invariants.NextNumber`).

## Model

| member | source | states |
|---|---|---|
| Text.StripSpec | app.py:121 | the stripped code is the infix of the cell text left after removing leading and trailing white space; it neither starts nor ends with white space |
| Text.StripEmpty | app.py:121-124 | a stripped code is empty exactly when the whole cell text is white space, so such rows are skipped |
| Text.StripIdempotent | app.py:121 | stripping an already stripped code changes nothing |
| Text.Truncate | app.py:131 | `[:200]`: at most 200 characters, a prefix of the text, the whole text when it is short enough |
| Numbering.FormatNumber | app.py:256 | the number starts with "0001-", followed by at least 8 digits whose value is the sequence number; exactly 8 digits iff the number is below 10^8, and beyond 8 digits no leading zero |
| Numbering.LastSegmentSpec | app.py:251 | `split('-')[-1]`: the dash-free tail of the text, preceded by a dash whenever it is not the whole text |
| Numbering.ParseSuffix | app.py:251 | a number without a dash has sequence number 0; otherwise parsing succeeds exactly when the text after the last dash is a non-empty digit string, and gives its value |
| Numbering.ParseInt | app.py:251 | `int` succeeds exactly on a non-empty digit string and returns the decimal value of its digits |
| Numbering.ParseFormatted | app.py:251-256 | parsing the suffix of a formatted number returns the sequence number it was made from |
| Numbering.FormatInjective | app.py:256 | two sequence numbers format to the same invoice number iff they are equal |
| Numbering.FirstNumber | app.py:253-256 | the first number issued is "0001-00000001" |
| Records.NextId | app.py:33 | a new row's key exceeds every existing key, is 1 in an empty table, and follows the largest key |
| Catalog.Overwrite | app.py:131-136 | an update rewrites description, cost and the four prices and keeps id, code, stock and unit |
| Catalog.NewProduct | app.py:140-148 | a created product has the row's code and fields, stock 0 and unit "unidad" |
| Catalog.FirstWithCode | app.py:127 | the position found holds the code and no earlier product does; nothing is found iff no product has the code |
| Catalog.FindByCode | app.py:219-230 | lookup by code answers not-found iff no product has that code, else the first product with it |
| Catalog.FindById | app.py:273-274 | lookup by key answers nothing iff the key is absent, else the product with that key |
| Catalog.Upsert | app.py:127-150 | for an existing code only the first product with it is overwritten and all others are unchanged; otherwise exactly one product with the code and fields is appended under the next key |
| Reconcile.Coerce | app.py:132 | `float(x or 0)`: a blank cell reads 0, a number reads as itself, text fails |
| Reconcile.RowFields | app.py:131-147 | a row yields fields iff none of its five numeric cells is text; the description is at most 200 characters and blank numbers are 0 |
| Reconcile.SkippedSpec | app.py:121-124 | a row is passed over exactly when its code text is all white space or strips to "nan" |
| Reconcile.Step | app.py:121-150 | one row fails iff it is kept and bad; a skipped row changes neither table nor counters; a kept row upserts its fields under its stripped code and adds one to exactly one counter, to created iff its code is new |
| Reconcile.ImportRows | app.py:116-158 | the loop fails iff some row is bad; otherwise created + updated is the number of kept rows and the table grows by the created count |
| Reconcile.ImportFailsAtFirstBadRow | app.py:132-162 | the error reported is that of the first bad row |
| Reconcile.ImportCodes | app.py:127-150 | after an import the codes in the table are the old codes plus the kept codes of the feed |
| Reconcile.CreatedCountsNewCodes | app.py:127-150 | the created count is the number of distinct kept codes not already present, so duplicates in a feed give one create then updates |
| Reconcile.ImportReflectsLastRow | app.py:127-137 | for every kept code, the first product with it holds the fields of the last feed row with that code |
| Reconcile.UpdateOnlyImport | app.py:127-137 | when all feed codes already exist, nothing is created, the table keeps its length, and each product is either untouched or, if it is the first with its code, overwritten by that code's last row |
| Reconcile.ImportKeepsIdentity | app.py:127-150 | existing products keep id, code, stock and unit at their positions; appended products have stock 0 and unit "unidad" |
| Reconcile.ImportKeepsIdsIncreasing | app.py:140-149 | product keys stay strictly increasing through an import |
| Reconcile.ImportWritesFeedFields | app.py:131-147 | every product is either untouched or holds the fields of some kept feed row, with a description of at most 200 characters |
| Reconcile.ReimportChangesNothing | app.py:116-158 | importing the same feed again leaves the table as it is, creates nothing and updates as many rows as the first import counted in total |
| Reconcile.Import | app.py:112-162 | the import fails iff some row is bad, and then commits nothing; on success only the product table changes, it is the table the row loop produced, the reported created and updated counts are the loop's, and total = created + updated = number of kept rows |
| Reconcile.ReimportStore | app.py:112-162 | running the endpoint again with the same feed on the committed store leaves the store unchanged and reports 0 created and every kept row as updated |
| Reconcile.ImportCreatesNewCodes | app.py:112-162 | the endpoint creates one product per distinct kept code the table lacked, and afterwards the table's codes are the old codes plus the feed's kept codes |
| Invoicing.Amount | app.py:275-276 | `float(item.get(key, default))`: the default when absent, the number when given, failure on anything else |
| Invoicing.Latest | app.py:249 | the invoice chosen is present and has the highest id |
| Invoicing.LastSuffix | app.py:249-253 | with no invoices the last sequence number is 0; otherwise it is the parsed suffix of an invoice whose id is the highest |
| Invoicing.ItemLine | app.py:273-285 | an item fails iff it has no product id, or its product exists and a given amount is not a number; it gives a line iff its product exists, with the item's or default price and quantity and subtotal = quantity × price |
| Invoicing.BuildLines | app.py:271-287 | the loop fails iff some item is bad; otherwise the lines carry consecutive keys, subtotals quantity × price and existing products, and the total is the sum of the subtotals |
| Invoicing.LinesFollowItems | app.py:272-285 | the lines are exactly the items whose product exists, in request order, priced and counted as asked or by default |
| Invoicing.UnknownItemsDropped | app.py:272-274 | items that all name unknown products give no lines and total 0 |
| Invoicing.Commit | app.py:259-291 | committing appends one invoice under the next key, with the number, client, request fields or their defaults and the lines' total, and appends its lines; nothing else changes |
| Invoicing.AssignNumber | app.py:249-268 | given the parsed latest suffix: it fails as unreadable exactly when there is none, fails as a duplicate of the next number exactly when that number is used, and otherwise succeeds iff no item is bad, committing under the next number |
| Invoicing.Issue | app.py:259-291 | once the number is chosen, the request fails iff some item is bad, with the store unchanged; otherwise the built lines are committed under the next invoice key |
| Invoicing.CreateInvoice | app.py:236-299 | the client error is answered exactly for a falsy client id and the no-items error exactly for an empty item list (given a client), and every failure leaves the store unchanged; an unreadable latest suffix fails as such, a used next number fails as a duplicate of that number, and with a readable unused number any failure is an item error; on success the number follows the latest suffix and is unused, and the invoice is committed with the built lines; an item error means some item is bad; a request with a client, items, a readable unused next number and no bad item succeeds |
| Admin.SeedClient | app.py:428-435 | the demo client takes the first key of the emptied client table |
| Admin.Reset | app.py:419-437 | after a reset there are no lines, invoices, products or price lists, and exactly one client, with code "601" and key 1 |
| Invariants.LastSuffixIsCount | app.py:249-253 | in a valid store the latest invoice's suffix is the number of invoices |
| Invariants.NumbersAreSequential | app.py:249-256 | in a valid store the numbers parse to 1..N and are pairwise distinct |
| Invariants.SucceedsUnlessBadItem | app.py:242-291 | with a client, items and a readable unused next number, creation succeeds exactly when no item is bad |
| Invariants.NextNumber | app.py:249-256 | in a valid store creation never fails on numbering and issues number N+1; with a client and items it succeeds exactly when no item is bad |
| Invariants.FirstNumberAfterReset | app.py:249-256 | after a reset the next invoice created gets "0001-00000001" |
| Invariants.UnknownItemsStillNumbered | app.py:271-290 | a request whose items all name unknown products still creates an invoice with the next number, no lines and total 0 |
| Invariants.ImportPreservesValid | app.py:116-152 | an import, successful or not, keeps the store invariants |
| Invariants.AppendInvoiceValid | app.py:259-291 | appending an invoice with its number, key and well-formed lines keeps the store invariants |
| Invariants.CreatePreservesValid | app.py:236-299 | invoice creation, successful or not, keeps the store invariants |
| Invariants.CreateAllValid | app.py:236-299 | any sequence of invoice requests keeps the store invariants |
| Invariants.NumbersAfterReset | app.py:249-256 | whatever requests follow a reset, the invoices carry sequence numbers 1..N in order, all distinct |

## Left out

- HTTP routing, request and JSON parsing, status codes and the file-presence checks (app.py:104-110): transport plumbing. The model starts from a parsed request.
- Spreadsheet reading with pandas (app.py:114): rows arrive already parsed. A cell is `Blank`, a `Number` that Python's `float` accepts (numeric text included), or `Text` it rejects.
- pandas NaN cells: `float(NaN)` stores NaN, and `str(NaN)` stores the description "nan". The model has no NaN. Only the `"nan"` code text is handled, and it is skipped.
- `str()` of non-text CODIGO cells (a numeric code 12.0 becomes "12.0"): the row's code is given as text.
- SQLAlchemy sessions, autoflush and commit failures (app.py:18, 152, 291): the store is a value and commits cannot fail. A failed request leaves the store as it was, as the rollback at request teardown does.
- Unordered `.first()` (app.py:127, 219): modelled as the first product in table (insertion) order.
- PDF rendering (app.py:301-388): library calls and float formatting.
- Timestamps and `strftime` (app.py:30, 43, 55, 298): the answer carries no date.
- Concurrency of invoice numbering: the code takes no lock (app.py:249-267), and the model is sequential.
- `crear_cliente`, `crear_lista_precios` and the list endpoints (app.py:164-214, 390-411): plain inserts and reads with no rule to prove.
- `crear_datos_iniciales` (app.py:78-96): demo data at start-up.
- IEEE float rounding in `cantidad * precio` and in the sums: money is exact `real`.
- Numbering.ParseInt: accepts only non-empty ASCII digit runs. Python's `int` also accepts surrounding white space, a sign, underscores and other Unicode digits. Every number the model issues is plain ASCII digits.
- Invoicing.ItemLine: an explicit null `producto_id` is treated like an absent key and fails the request. In the code, `query.get(None)` finds nothing and the item is silently dropped.
- A `cliente_id` or `producto_id` that is not an integer (text, a float): ids are `int`. A `cliente_id` is falsy when absent, null or 0.
- Admin.Reset: the two commits of the reset (app.py:425, 437) are one step, so a failure between them, which would leave the store empty without the demo client, is not modelled.
