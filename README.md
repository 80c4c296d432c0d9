# Stock ledger and reconciliation model

A Dafny model of the stock module of a small inventory web application
(`Controllers/StockController.cs`). The `Stocks` table is an in-memory sequence of
movement rows (`Models.Stock`), in table order, and the `Productos` table a sequence of
products (`Models.Producto`). The controller is a class whose fields are those two
tables plus the injected URL builders. It has four actions:

- `LlenarStock` (restock) looks up the product's newest movement by `FechaMovimiento`.
  When there is one, it appends a "Reabastecimiento" row whose `StockActual` is the old
  `StockActual` plus the amount. When there is none, it writes nothing. The success flag is
  set either way.
- `ActualizarStock` (set stock) is find-or-create. It overwrites `StockInicial` and
  `StockActual` of the product's *first* row in place. When the product has no row, it
  appends an "Inicial" row with minimum 5 and maximum 30.
- `StockGestion` builds the stock page. It returns the products with and without
  movements, each product's `Foto` resolved by `ObtenerUrlImagen`, and the
  latest-movement-per-product dictionary.
- `Buscar` redirects when the query is null, empty or white space. Otherwise it keeps the
  products whose name or code contains the query, resolves their `Foto` with
  `ResolverUrlFoto`, and splits them by the same dictionary.

Modules, one per file, in dependency order:

- `Models` (`models.dfy`): the `Stock` and `Producto` rows, C#'s `int` as `int32`, and
  its wrap-around addition.
- `Text` (`text.dfy`): `string.IsNullOrEmpty`, `string.IsNullOrWhiteSpace` (with .NET's
  white-space set), `Contains` and the case-insensitive `StartsWith`.
- `ImageUrls` (`image_urls.dfy`): `ResolverUrlFoto` and `ObtenerUrlImagen`, and lemmas on
  where the two disagree.
- `Ledger` (`ledger.dfy`): the newest movement of a product, the per-product dictionary,
  and the ledgers after a restock and after a set-stock (`Restocked`, `StockSet`), with
  the lemmas about them.
- `Reconcile` (`reconcile.dfy`): the query filter, the with/without-stock partition, and
  the loop that overwrites `Foto` in place.
- `Controllers` (`stock_controller.dfy`): class `StockController` with the four actions.
  Each action is proved against the functions above.

Design decisions:

- **Ties in `FechaMovimiento`.** The three queries that pick the newest movement run as SQL
  `ORDER BY FechaMovimiento DESC`, which leaves ties in no particular order. The model
  chooses a rule: the first row in table order among those with the largest timestamp.
  This fits the model's assumption that the sequence order is the order in which the
  database returns rows (see "## Left out"). `Ledger.IsNewestAt` states the rule, and
  `Ledger.NewestAtUnique` shows it picks exactly one row. Under this rule, a restock
  stamped with a time no later than the newest row does not become the current stock
  (`RestockAtSameTimeIsHidden`). `LatestPerProductIsNewest` and `RestockAtSameTimeIsHidden`
  hold only because of this rule. In the program, when two rows of a product share the
  newest timestamp, the grouped dictionary and `LlenarStock`'s single-row query may each
  pick a different one. The page can then show one `StockActual` while a restock adds to
  another.
- **Set stock edits the first row, not the newest.** `ActualizarStock` picks the
  product's first row in table order, not its newest one. So once a product has been
  restocked, setting its stock changes an old row, and the current stock shown by the
  dictionary stays the same (`Ledger.SetStockCurrent`). The model keeps this behaviour as
  written.
- **Append-only, with one exception.** The ledger only grows, except that
  `ActualizarStock` overwrites a row in place. Neither mutating action returns the row it
  wrote: both end in a redirect.

## Model

| member | source | states |
|---|---|---|
| `Models.WrappingAdd` | Controllers/StockController.cs:135 | the sum of two `int`s is congruent to the exact sum modulo 2^32, lies in the Int32 range, and equals the exact sum whenever that fits |
| `Text.ContainsAt` | Controllers/StockController.cs:34 | `Contains(s, q)` holds exactly when `q` occurs in `s` at some position |
| `Text.EmptyIsWhiteSpace` | Controllers/StockController.cs:113 | every null-or-empty value is also null-or-white-space, so whatever `ObtenerUrlImagen` treats as missing, `ResolverUrlFoto` does too |
| `ImageUrls.ResolverUrlFoto` | Controllers/StockController.cs:55-66 | blank input gives `Url.Content("~/img/no-image.png")`; every "http…" value in any letter case comes back unchanged, whatever the order of the checks; `HelpersAgreeOnPublicIds` states that a non-blank, non-absolute value goes to the host, `ResolverAsksHostOnlyForIds` the converse, `ResolverIdempotent` re-resolution |
| `ImageUrls.ResolverAsksHostOnlyForIds` | Controllers/StockController.cs:64-65 | when the result is neither the placeholder nor the input itself, the input was a non-blank, non-absolute public id and the result is the host's URL for it |
| `ImageUrls.ResolverIdempotent` | Controllers/StockController.cs:55-66 | if the host returns absolute URLs, resolving an already resolved non-blank value changes nothing |
| `ImageUrls.ObtenerUrlImagen` | Controllers/StockController.cs:111-122 | null or empty input gives "/path/to/default/image.jpg", anything else goes to the host; `HelpersDivergeOnBlank` and `HelpersDivergeOnAbsoluteUrl` show that it sends blank-but-not-empty and "http…" values to the host |
| `ImageUrls.ObtenerDefaultOnlyForEmpty` | Controllers/StockController.cs:113-121 | if the host returns absolute URLs, the result is the default path exactly when the input is null or empty |
| `ImageUrls.HelpersAgreeOnPublicIds` | Controllers/StockController.cs:111-121 | on non-blank, non-absolute values both helpers return the host's URL |
| `ImageUrls.HelpersDivergeOnBlank` | Controllers/StockController.cs:113-116 | on a non-empty all-white-space value `ResolverUrlFoto` gives the local placeholder while `ObtenerUrlImagen` asks the host |
| `ImageUrls.HelpersDivergeOnAbsoluteUrl` | Controllers/StockController.cs:118-120 | `ObtenerUrlImagen` passes an absolute URL to the host as if it were a public id, where `ResolverUrlFoto` keeps it |
| `Ledger.HasMovement` | Controllers/StockController.cs:74 | the `Any` test: some row of the ledger has the product's id; `MovementCount`, `NewestIndex` and `LatestPerProduct` are each proved to be defined exactly when it holds |
| `Ledger.MovementCount` | Controllers/StockController.cs:127-128 | the number of the product's rows is at most the ledger's length, and positive exactly when it has a movement |
| `Ledger.MovementCountIsRowCount` | Controllers/StockController.cs:127-128 | `MovementCount` equals the number of ledger indices holding a row of the product |
| `Ledger.NewestIndex` | Controllers/StockController.cs:127-130 | None exactly when the product has no movement; otherwise the index of a row of that product whose timestamp is at least every other of its rows, with every earlier row of it strictly older |
| `Ledger.Newest` | Controllers/StockController.cs:127-132 | None exactly when the product has no movement; otherwise a row of the ledger, of that product, no older than any of its rows |
| `Ledger.LatestPerProduct` | Controllers/StockController.cs:95-99 | keys are exactly the product ids with a movement; each value is a ledger row of that product no older than any of its rows |
| `Ledger.LatestPerProductIsNewest` | Controllers/StockController.cs:41-45 | the grouped dictionary holds, per product, the very row the per-product newest query returns, and has a key exactly when that query finds a row |
| `Ledger.RestockRecord` | Controllers/StockController.cs:138-147 | the row a restock appends, built from the newest row: its product, the amount as `StockInicial`, the wrapped sum as `StockActual`, its minimum and maximum, "Reabastecimiento" and the time; `RestockAppendsOne` states these fields |
| `Ledger.Restocked` | Controllers/StockController.cs:127-151 | the ledger after a restock: one row longer exactly when the product has a movement, with the old ledger as its prefix, so no existing row changes |
| `Ledger.RestockWithoutMovementIsNoOp` | Controllers/StockController.cs:132-155 | restocking a product with no movement leaves the ledger unchanged (its movement count stays 0) |
| `Ledger.RestockAppendsOne` | Controllers/StockController.cs:138-150 | otherwise exactly one row is appended and the old rows are its prefix; the row has the product id, `StockInicial` = amount, `StockActual` = newest `StockActual` + amount, the newest row's minimum and maximum, "Reabastecimiento" and the given time |
| `Ledger.RestockCount` | Controllers/StockController.cs:150 | the product's movement count grows by exactly one; every other product's count is unchanged |
| `Ledger.RestockBecomesNewest` | Controllers/StockController.cs:135-146 | when the time is later than the newest row, the appended row becomes the newest and the current stock is the old one plus the amount |
| `Ledger.RestockAtSameTimeIsHidden` | Controllers/StockController.cs:146 | when the time is not later, the newest movement of the product stays the one it was |
| `Ledger.RestockKeepsOtherProducts` | Controllers/StockController.cs:127-128 | a restock never changes another product's newest movement |
| `Ledger.FirstIndex` | Controllers/StockController.cs:167-168 | None exactly when the product has no movement; otherwise the index of a row of that product with no row of it before |
| `Ledger.InitialRecord` | Controllers/StockController.cs:172-180 | the "Inicial" row set stock creates: the value as `StockInicial` and `StockActual`, minimum 5, maximum 30, default timestamp; `SetStockCreatesInitial` states these fields |
| `Ledger.StockSet` | Controllers/StockController.cs:167-188 | the ledger after set stock: one row longer exactly when the product had no movement, the product has a movement afterwards, and every old row except the product's first is unchanged |
| `Ledger.SetStockCreatesInitial` | Controllers/StockController.cs:170-181 | without a movement, exactly one row is appended after the old ones: `StockInicial` = `StockActual` = value, minimum 5, maximum 30, "Inicial", default timestamp |
| `Ledger.SetStockOverwritesFirst` | Controllers/StockController.cs:183-188 | with a movement, the length is unchanged, only the product's first row changes, and of it only `StockInicial` and `StockActual`, both set to the value |
| `Ledger.SetStockRegistersProduct` | Controllers/StockController.cs:170-188 | afterwards the product has a movement, and no other product gains or loses one |
| `Ledger.SetStockIdempotent` | Controllers/StockController.cs:167-188 | setting the same value a second time leaves the ledger as the first call left it |
| `Ledger.SetStockCurrent` | Controllers/StockController.cs:167-186 | which row is newest does not move for any product; the current stock becomes the value only when the first row is also the newest, otherwise the newest row is untouched; other products' newest rows are unchanged |
| `Ledger.SetStockFirstTimeIsCurrent` | Controllers/StockController.cs:172-181 | for a product with no movement, the created "Inicial" row becomes its newest movement |
| `Reconcile.Filter` | Controllers/StockController.cs:47-48 | the result is no longer than the input and holds exactly the input elements the condition accepts |
| `Reconcile.FilterIsSubsequence` | Controllers/StockController.cs:47-48 | filtering keeps the input order |
| `Reconcile.FilterSplits` | Controllers/StockController.cs:73-80 | filtering by a condition and by its negation puts every input element in exactly one result, with its multiplicity |
| `Reconcile.MatchesQuery` | Controllers/StockController.cs:34 | name or code contains the query as a substring; a null column matches nothing; `Text.ContainsAt` characterises the substring test |
| `Reconcile.Matching` | Controllers/StockController.cs:32-35 | holds exactly the products of the input whose name or code contains the query |
| `Reconcile.SinStock` | Controllers/StockController.cs:47 | holds exactly the input products whose id is not a key of the dictionary |
| `Reconcile.ConStock` | Controllers/StockController.cs:48 | holds exactly the input products whose id is a key of the dictionary |
| `Reconcile.WithoutMovements` | Controllers/StockController.cs:73-75 | holds exactly the input products that no movement refers to |
| `Reconcile.WithMovements` | Controllers/StockController.cs:78-80 | holds exactly the input products that some movement refers to |
| `Reconcile.PartitionByDictionary` | Controllers/StockController.cs:47-48 | the without/with lists are disjoint, each keeps the input order, their multisets add up to the input, and a product is "with stock" exactly when the dictionary has its id |
| `Reconcile.PartitionByMovements` | Controllers/StockController.cs:73-80 | over the ledger's dictionary, the `Buscar` lists equal the `StockGestion` `Any` queries, and a product is "with stock" exactly when some movement has its id |
| `Reconcile.WithFoto` | Controllers/StockController.cs:39 | the product with only its `Foto` changed, to a present value |
| `Reconcile.WithFotos` | Controllers/StockController.cs:38-39 | same length and order as the input, each product replaced by itself with only `Foto` resolved |
| `Reconcile.WithFotosCommutes` | Controllers/StockController.cs:83-92 | resolving `Foto` before filtering by query or by stock gives the same lists as resolving after |
| `Reconcile.OverwriteFotos` | Controllers/StockController.cs:83-92 | the in-place loop leaves the array equal to the input with every `Foto` resolved |
| `Controllers.StockController.constructor` | Controllers/StockController.cs:18-22 | the controller starts on the given tables and URL builders |
| `Controllers.StockController.Buscar` | Controllers/StockController.cs:26-52 | redirects exactly when the query is null or white space; otherwise every listed product contains the query in its name or code, the lists are the dictionary partition of the matches with `Foto` resolved by `ResolverUrlFoto`, "with stock" products have a movement and "without stock" ones have none |
| `Controllers.StockController.StockGestion` | Controllers/StockController.cs:70-107 | the two `Any` queries with `Foto` resolved by `ObtenerUrlImagen`, the dictionary of newest rows, and the lists equal to the dictionary partition of all products |
| `Controllers.StockController.LlenarStock` | Controllers/StockController.cs:124-158 | the flag is set, and the new ledger is `Restocked` of the old one: unchanged when the product has no movement, otherwise the old ledger plus the `RestockRecord` built from the newest row |
| `Controllers.StockController.ActualizarStock` | Controllers/StockController.cs:165-192 | the new ledger is `StockSet` of the old one: the `InitialRecord` appended when the product has no movement, otherwise only its first row's `StockInicial` and `StockActual` overwritten |

## Left out

- `Areas/Identity/Pages/Account/Manage/ChangePassword.cshtml.cs`: identity and sign-in plumbing, raw SQL and page results. It is not part of this model.
- Persistence: `SaveChanges`, `SaveChangesAsync`, `AsNoTracking`, `Update` and change tracking are not modelled. Each write is applied to the in-memory sequence at once. A store exception would propagate out of the action before the flag is set, with no redirect; this is not modelled.
- `StockSet` appends an "Inicial" row for any `id`, even one no product has. The column name `Fk_Producto` suggests a foreign key, and then `SaveChangesAsync` would throw instead of storing that orphan row.
- Table order: SQL gives no row order without `ORDER BY`. The model takes the sequence order as the order in which the database returns rows. That covers `FirstOrDefaultAsync` in `ActualizarStock`, the tie-break, and the product queries of `Buscar` and `StockGestion`. The "keeps input order" results (`FilterIsSubsequence`, `PartitionByDictionary`) and the list equalities of `PartitionByMovements` and `StockGestion` rest on this.
- Concurrency: lost updates or stale reads between the read and the write of `LlenarStock` and `ActualizarStock` are out of scope.
- `DateTime.Now` is the `now` parameter of `LlenarStock`, counted in ticks.
- `FechaMovimiento` of the row `ActualizarStock` creates is never set, so it is modelled as `DefaultFecha` = 0, standing for `default(DateTime)`. Models/Stock.cs is not part of this model; if it has a field initializer, that value would apply instead.
- Column types: `int` for ids and quantities and `DateTime` for the timestamp are assumptions, because the entity classes are outside this model. `Nombre`, `Codigo_Producto`, `Foto` and `TipoMovimiento` may be null.
- The image host's `BuildUrl` and `Url.Content` are foreign calls. They appear as the function-typed fields of `UrlBuilders`, with no property assumed except in the preconditions of `ResolverIdempotent` and `ObtenerDefaultOnlyForEmpty`: both assume the host returns absolute URLs.
- `Contains` is plain ordinal substring search, without the database collation's case or accent rules. A null `Nombre` or `Codigo_Producto` matches nothing, as in SQL.
- `StartsWith("http", OrdinalIgnoreCase)` is modelled with ASCII case folding. The prefix is all ASCII letters, and no other character upper-cases to H, T or P, so the result is the same.
- `ViewData`/`TempData` bags, `[Authorize]`/`[HttpGet]`/`[HttpPost]` attributes, async `Task` wrappers and redirects are replaced by the typed results `StockView`, `BuscarResult` and the flag returned by `LlenarStock`. `Buscar` redirects to `nameof(Index)`, but this controller has no `Index` action; the model records only that a redirect happens.
- Entities as objects: the `foreach` loops change `Foto` on product objects. The model copies the fetched list into a fresh array and overwrites its elements, so it does not capture aliasing. `ActualizarStock`'s in-place field update is a positional update of the ledger sequence.
- `ToDictionaryAsync` throws on a duplicate key. This cannot happen after grouping by the same key, so the dictionary is built directly.
