# Açaí stock, orders and profit — a verified model

This project models the business core of a small açaí distributor's back office:

- **The stock ledger** (`estoque_registro`). It holds one row per item. The model takes descriptions to be unique, as a unique index on `descricao` would make them; the handlers do not check this themselves. `POST /estoque` creates or merges a row, `PUT /estoque/:codigoItem` edits one, and `DELETE /estoque/:codigoItem` removes one.
- **The two price rule chains.** `POST /pedidos/prever` previews a price. `POST /pedidos` creates an order with a slightly different chain. The rules are, in order: the fixed 122.50 for Rodrigo at Barra Açaí, the loyalty discount for two allow-listed (salesperson, store) pairs, and then the configured sale price.
- **The order table** and how its handlers move stock. Create takes the quantity out of the matched stock row, edit recomputes profit without touching stock, and delete puts the quantity back.
- **The order list page.** It covers the "@store" or substring search, the smart date field (2, 4 or 8 digits), the filtered total, auto-fill by salesperson, picking a stock suggestion, adding items to a multi-item order, and the two column sorts.
- **The profit report page.** It covers the text, month, fortnight and smart date filters, the profit total, the column sort, the per-month chart series, and the profit-by-salesperson-and-store table of the PDF report.

Money is `real`. Quantities are `int`. `toFixed(2)` is modelled exactly over the reals: it rounds the magnitude to the nearest hundredth, with halves going up. Each JavaScript idiom the code relies on is written out:

- `||` and truthiness are in `Js`;
- `toLowerCase`, `trim`, `includes`, the `\D` strip, `Number` on digit strings, `padStart` and `<` on strings are in `Text`;
- `new Date(y, m, d).getDate()` with month rollover is in `Calendar`;
- `filter`, `reduce` and a stable `sort` are in `Seqs`.

The server clock and the current year are parameters.

Modules, one per file:

| file | module | what it models |
|---|---|---|
| wrappers.dfy | `Wrappers` | `Option` and `Result` |
| js.dfy | `Js` | JavaScript truthiness and `a \|\| b` |
| text.dfy | `Text` | string operations |
| calendar.dfy | `Calendar` | the `Date` constructor's day of month |
| seqs.dfy | `Seqs` | filter, sum and stable sort |
| money.dfy | `Money` | rounding to cents, `toFixed(2)` and the margin text |
| estoque.dfy | `Estoque` | the stock ledger and its handlers |
| pricing.dfy | `Pricing` | the preview and create price chains |
| pedidos.dfy | `Pedidos` | the order handlers as database transitions |
| rows.dfy | `Rows` | the rows the pages hold and the smart date field |
| pedidos_list.dfy | `PedidosList` | the order list page |
| lucro_list.dfy | `LucroList` | the profit report page |
| grouping.dfy | `Grouping` | the salesperson and store table of the report |

Behaviours of the code that are easy to miss:

- A positive caller price overrides even the fixed 122.50 (`Pricing.OverrideBeatsFixedPrice`).
- Create ignores a caller's day and month and uses the clock (`Pedidos.CreateIgnoresCallerDate`).
- Preview and create disagree on açaí items that get the loyalty discount (`Pricing.PreviewCreateDivergence`).
- The margin text is computed before the caller's override (`Pricing.OverrideLeavesStaleProfit`).
- The stock delete handler does not check for orders that reference the row and has no 409 path; a refusal by the database answers 500.
- Deleting an unknown stock code answers 500; the handler has no 404 path (`Estoque.DeleteEstoque`).
- No handler answers 400: a non-numeric order quantity fails at the insert (`Pedidos.CreatePedido`).
- On a repeat stock entry, the code accumulates quantity and cost, and divides the new total by the new on-hand quantity (`Estoque.MergedItem`).

## Model

| member | source | states |
|---|---|---|
| Text.Trim | backend/src/server.ts:30 | `trim` drops only white space from both ends: the result occurs in the input, neither starts nor ends with white space, and is empty exactly when the input is all white space |
| Text.ContainsAt | frontend/src/pages/PedidosList.tsx:270-272 | `includes` holds exactly when the needle occurs at some index of the haystack |
| Text.NatToStringValue | backend/src/server.ts:272 | reading back the decimal text `String(n)` writes gives `n` |
| Text.LexLessTotal | frontend/src/pages/PedidosList.tsx:204-208 | JavaScript's `<` on strings orders any two different strings one way or the other |
| Calendar.DayOfMonth | frontend/src/pages/LucroList.tsx:111-115 | the day `getDate()` reads back is always 1..31, and is the given day when that day lies inside the given month |
| Calendar.RollsIntoNextMonth | frontend/src/pages/LucroList.tsx:114 | a day past the end of a month lands that many days into the next month, and a day past the end of December lands in January of the next year |
| Seqs.Filter | frontend/src/pages/PedidosList.tsx:259 | `filter` keeps exactly the elements satisfying the predicate, as an order-preserving sublist |
| Seqs.FilterCounts | frontend/src/pages/PedidosList.tsx:259 | `filter` drops no duplicates: each element satisfying the predicate appears as often as in the input, and any other element not at all |
| Seqs.SortBy | frontend/src/pages/PedidosList.tsx:201-213 | the sort returns a permutation of its input that is ordered by the comparator |
| Seqs.SortByStable | frontend/src/pages/PedidosList.tsx:201-213 | the sort is stable, as `Array.prototype.sort` is: the elements the comparator ties keep their input order |
| Seqs.FilterFilter | frontend/src/pages/PedidosList.tsx:259 | filtering by one predicate and then another is filtering by both at once |
| Seqs.SumFilterSplit | frontend/src/pages/LucroList.tsx:170-173 | splitting a list by any predicate conserves the sum |
| Money.Round2 | backend/src/server.ts:241-242 | `Number(x.toFixed(2))` is a whole number of hundredths, within half a hundredth of `x`, with the sign of `x` |
| Money.Round2Idempotent | backend/src/server.ts:241-242 | rounding an already rounded amount changes nothing |
| Money.Fixed2Denotes | backend/src/server.ts:289-292 | the text `toFixed(2)` writes reads back with `Number` as exactly the rounded amount |
| Money.MarginText | backend/src/server.ts:289-292 | the margin text always ends in "%", and it is "0%" exactly when the sale price is not positive, so profit is never divided by zero |
| Money.MarginDenotes | backend/src/server.ts:289-292 | a margin text reads back as the rounded percentage of profit over price, or 0 when the price is not positive |
| Estoque.FindByDescricao | backend/src/server.ts:37-39 | the lookup by description finds a row exactly when one has that description, and the row it finds has it |
| Estoque.UnitCost | backend/src/server.ts:34-35 | the unit cost times a positive quantity gives back the total cost, and is 0 for a quantity of zero or less |
| Estoque.NewItem | backend/src/server.ts:82-101 | a new row takes the trimmed description, starts with on-hand equal to the entered quantity, and has a unit cost that multiplies back to the entered total (0 for a non-positive quantity) |
| Estoque.MergedItem | backend/src/server.ts:41-79 | a repeat entry adds to the entered quantity, on-hand and total cost. Its unit cost times the new on-hand gives the new total. Sale price, supplier, invoice and due date keep their old values when not sent. The dates and units do not change |
| Estoque.PostEstoque | backend/src/server.ts:27-114 | a new row is created exactly when no row has the trimmed description; otherwise that row is merged. The ledger stays valid with unique descriptions, and no other row changes |
| Estoque.PostTwiceAccumulates | backend/src/server.ts:41-57 | two entries for one new description give one row whose quantities and total cost are the sums of both entries |
| Estoque.UnitCostOverOnHand | backend/src/server.ts:42-51 | after sales, a repeat entry prices the unit cost over the on-hand quantity, not over everything ever entered (200/12, not 200/20) |
| Estoque.EditedItem | backend/src/server.ts:141-167 | a PUT shifts on-hand by exactly the change in entered quantity and replaces the total cost rather than adding to it. The unit cost multiplies back to the total, and dates are unchanged |
| Estoque.PutEstoque | backend/src/server.ts:128-175 | an unknown code is a 404. A rename onto another row's description fails, under the assumed unique index on `descricao`. Otherwise only that row becomes the edited row and the ledger stays valid |
| Estoque.PutIdempotent | backend/src/server.ts:141-150 | sending the same PUT twice gives the same ledger as sending it once |
| Estoque.AdjustOnHand | backend/src/server.ts:375-382 | moving one row's on-hand quantity changes that field of that row by exactly the amount, with no lower bound, and nothing else |
| Estoque.AdjustOnHandInverse | backend/src/server.ts:481-495 | putting back what was taken restores the ledger exactly |
| Estoque.DeleteEstoque | backend/src/server.ts:179-187 | a delete removes exactly that code and keeps every other row. An unknown code fails with a server error |
| Pricing.Discounted | backend/src/server.ts:233-238 | the loyalty price lies between the cost and the configured price, strictly between them when they differ and equal to both when they agree; it is below the configured price exactly when that price is above cost |
| Pricing.PreviewQuantity | backend/src/server.ts:197 | a missing or zero quantity counts as one, and any other quantity is used as sent |
| Pricing.Prever | backend/src/server.ts:192-253 | the special rule gives 122.50 and sets the flag. The flag is set exactly when the special rule fires, or when a row matched, the pair is allow-listed and the item is not a box. The price is the rounded loyalty price or the rounded configured price, and the total is the rounded product with the quantity |
| Pricing.FixedPriceExample | backend/src/server.ts:225-231 | two items typed "Aça…" for Rodrigo at Barra Açaí preview at 122.50 each and 245.00 in all, with the flag set, whatever the stock row says or whether one matched |
| Pricing.LoyaltyExample | backend/src/server.ts:233-238 | a row with cost 10 and price 20 previews at 15 for an allow-listed pair |
| Pricing.NotBoxWithoutX | backend/src/server.ts:217-220 | a description without an "x" is never excluded as a box item |
| Pricing.CreateRule | backend/src/server.ts:299-346 | every branch of the create chain leaves consistent profit fields. The special rule gives 122.50; otherwise the price is the loyalty price exactly when a row matched, the pair is allow-listed and the item is neither açaí nor a box; else the configured price |
| Pricing.ApplyOverride | backend/src/server.ts:349-354 | a positive caller price replaces the unit price and the total follows it. The profit and margin fields are carried over unchanged |
| Pricing.PriceOrder | backend/src/server.ts:287-354 | the total is always the final unit price times the quantity. Without an override, all profit fields are consistent with that price |
| Pricing.PreviewAgreesWithCreate | backend/src/server.ts:217-220 | without "açai", "açaí" or "acai" in the description, the preview's price is the create chain's price rounded to cents |
| Pricing.PreviewCreateDivergence | backend/src/server.ts:306-312 | when the chains disagree, the description is an açaí non-box item with a matched row, an allow-listed pair and no special rule. The preview discounts it and create charges the configured price |
| Pricing.RodrigoDivergesOnlyWithoutCedilla | backend/src/server.ts:315-319 | for Rodrigo at Barra Açaí the chains can only disagree on "acai" written without the cedilla |
| Pricing.EricssonAcaiDiverges | backend/src/server.ts:306-312 | Ericsson at Açaí da Ponte is quoted 15 by the preview and charged 20 by create for an "açai" row with cost 10 and price 20 |
| Pricing.OverrideBeatsFixedPrice | backend/src/server.ts:349-351 | a positive caller price wins over the fixed 122.50 |
| Pricing.OverrideLeavesStaleProfit | backend/src/server.ts:349-369 | after an override to 40 on a row with cost 10 and price 20, the stored unit profit is still 10 and the margin still reads 50%, although the price is 40 |
| Pedidos.PreverPedido | backend/src/server.ts:196-204 | a discount other than the special rule is only reported for a description that matched a stock row. Without a match and without a discount, the price and total are 0 |
| Pedidos.OrderPrice | backend/src/server.ts:278-354 | without a positive caller price, the create pricing against the ledger is consistent with the matched row's unit cost |
| Pedidos.TakeStock | backend/src/server.ts:375-382 | a sale lowers only the matched row's on-hand quantity, with no lower bound, and leaves the ledger alone when nothing matched |
| Pedidos.PutBack | backend/src/server.ts:481-495 | deleting an order puts its quantity back only if the captured row still exists |
| Pedidos.PutBackUndoesTake | backend/src/server.ts:375-382 | putting back what a sale took restores the ledger |
| Pedidos.CreatePedido | backend/src/server.ts:260-391 | it fails exactly when the quantity is not a number. Otherwise the order gets the next id and the trimmed description, is dated by the clock, is priced by the create chain, and captures the matched row. Only that row loses the quantity sold |
| Pedidos.CreatePricing | backend/src/server.ts:286-294 | without an override, the stored order's price and profit fields are consistent against the matched row's unit cost |
| Pedidos.CreateIgnoresCallerDate | backend/src/server.ts:270-272 | the day and month a caller sends make no difference to the created order or the database |
| Pedidos.EditedOrder | backend/src/server.ts:418-460 | a truthy price or quantity replaces the stored one and the totals follow. Profit is taken against the current cost of the captured row, and is 0 with margin "0%" when that row is gone. The id and stock reference never change |
| Pedidos.EditPedido | backend/src/server.ts:406-466 | an unknown id is a 404. Otherwise only that order changes and stock never does |
| Pedidos.DeletePedido | backend/src/server.ts:469-507 | an unknown id is a 404. Otherwise the order is removed and its quantity goes back to the captured row if it still exists |
| Pedidos.CreateThenDeleteRestores | backend/src/server.ts:375-382 | creating an order and deleting it restores the stock ledger and the set of stored orders |
| Pedidos.EditThenDeleteShiftsStock | backend/src/server.ts:441-499 | after an edit of the quantity, a delete puts back the edited quantity, so on-hand ends shifted by the difference |
| Rows.RowOf | backend/src/server.ts:397-404 | the row a page holds for an order carries its id, texts, day, month and totals, and never a year |
| Rows.ParseDateFilter | frontend/src/pages/PedidosList.tsx:280-309 | the date field asks nothing exactly when it is blank or its digit count is not 2, 4 or 8 |
| Rows.QueryOfDigits | frontend/src/pages/PedidosList.tsx:283-308 | 2, 4 or 8 digits are read as day, day and month, or day, month and year; other counts ask nothing. Writing the parts back zero-padded gives exactly the digits read, so each part is the value of its own two or four digits |
| Rows.DayRoundTrip | frontend/src/pages/PedidosList.tsx:280-287 | typing "dd" asks for exactly that day |
| Rows.FullDateRoundTrip | frontend/src/pages/PedidosList.tsx:280-308 | typing "dd/mm/yyyy" asks for exactly that day, month and year |
| Rows.SameDigitsSameQuery | frontend/src/pages/PedidosList.tsx:280-281 | only the digits typed matter: "26/01", "26-01" and "2601" ask the same |
| Rows.DayMonthRoundTrip | frontend/src/pages/PedidosList.tsx:280-295 | typing "dd/mm" asks for exactly that day and month |
| Rows.DayMonthNarrowsDay | frontend/src/pages/PedidosList.tsx:284-295 | a row that passes a day-and-month query passes the query for its day alone |
| Rows.NoYearNoFullDate | frontend/src/pages/PedidosList.tsx:298-308 | a row without a year never passes a full-date query |
| PedidosList.ParseTextFilter | frontend/src/pages/PedidosList.tsx:260-275 | a lower-cased, trimmed term starting with "@" names a store, the trimmed rest after the "@". Any other non-blank term is a search. A blank term asks nothing |
| PedidosList.PedidosFiltrados | frontend/src/pages/PedidosList.tsx:259-312 | the result is an order-preserving sublist holding exactly the rows that pass both fields; with both fields blank it is every row |
| PedidosList.StoreMode | frontend/src/pages/PedidosList.tsx:263-266 | in store mode a row passes exactly when its lower-cased store equals the typed name and its date passes |
| PedidosList.FilterIgnoresCase | frontend/src/pages/PedidosList.tsx:260 | lower-casing what was typed does not change the result |
| PedidosList.OtherDigitCountsIgnored | frontend/src/pages/PedidosList.tsx:280-309 | a date field whose digit count is not 2, 4 or 8 filters nothing |
| PedidosList.FullDateHidesYearlessRows | frontend/src/pages/PedidosList.tsx:298-308 | a full date hides every row without a year, which is every row the server sends |
| PedidosList.FilterTwice | frontend/src/pages/PedidosList.tsx:259-312 | filtering the filtered list again changes nothing |
| PedidosList.DayMonthNarrows | frontend/src/pages/PedidosList.tsx:284-295 | adding a month to a typed day gives a sublist of the day's result |
| PedidosList.TotalPedidos | frontend/src/pages/PedidosList.tsx:340-342 | the filtered total plus the total of the hidden rows is the total of all rows, and with blank fields it is the total of all rows |
| PedidosList.Latest | frontend/src/pages/PedidosList.tsx:320-325 | it picks a row of the salesperson, ignoring case, with the largest id, and the first such row; it picks none exactly when the salesperson has no rows |
| PedidosList.AutoFill | frontend/src/pages/PedidosList.tsx:317-334 | a blank name or one with no orders leaves the form alone. Otherwise only the store and unit price change: the store comes from the latest order when it is a non-empty string there, and the price whenever the order has one, since the decimal column arrives as a string and even "0" is truthy |
| PedidosList.AutoFillCopiesZeroPrice | frontend/src/pages/PedidosList.tsx:329-331 | a latest order priced at 0 overwrites the form's price with 0 |
| PedidosList.Sugestoes | frontend/src/pages/PedidosList.tsx:234-245 | there are no suggestions while the box is blank. Otherwise they are an order-preserving sublist of the stock holding exactly the items whose lower-cased description contains the lower-cased typed text |
| PedidosList.EscolherItem | frontend/src/pages/PedidosList.tsx:247-257 | picking an item sets the description, keeps a price already in the form, takes the item's price only in place of a null one, and changes nothing else |
| PedidosList.ChoosingAgainKeepsFirstPrice | frontend/src/pages/PedidosList.tsx:250-254 | picking a second item after a priced first one keeps the first item's price under the second item's name |
| PedidosList.AddItem | frontend/src/pages/PedidosList.tsx:753-774 | adding is refused exactly without a truthy description and quantity. Otherwise one item is appended and the earlier ones are unchanged. The new item is the form with its salesperson and store taken from the first added item when truthy there, else from the form when truthy there, else "". The form is cleared down to that salesperson and store |
| PedidosList.AddItemKeepsSharedResponsavel | frontend/src/pages/PedidosList.tsx:759-766 | once the first item has a salesperson, every item added carries it |
| PedidosList.KeyOrder | frontend/src/pages/PedidosList.tsx:204-209 | the column comparator, in either direction, is a strict weak order, so the sort is well defined |
| PedidosList.OrdenarPor | frontend/src/pages/PedidosList.tsx:201-228 | a click flips the direction and returns a permutation of the rows whose keys are ordered in the new direction |
| PedidosList.SortedKeysMonotone | frontend/src/pages/PedidosList.tsx:201-228 | after the sort, keys never decrease going down an ascending list and never increase going down a descending one |
| LucroList.DiaDoPedido | frontend/src/pages/LucroList.tsx:111-115 | the day the page reads back lies in 1..31, and is missing exactly when the month is not a number |
| LucroList.PedidosFiltrados | frontend/src/pages/LucroList.tsx:100-165 | the result is an order-preserving sublist holding exactly the rows that pass every filter; with every field blank it is every row |
| LucroList.NoFiltersKeep | frontend/src/pages/LucroList.tsx:100-165 | with every field blank a row passes |
| LucroList.MonthFilterExact | frontend/src/pages/LucroList.tsx:108 | a chosen month keeps exactly the rows whose stored month equals it and that pass the other filters |
| LucroList.FortnightsPartition | frontend/src/pages/LucroList.tsx:122-127 | a dated row whose month is a number passes exactly one of the two fortnights |
| LucroList.FortnightOfValidDate | frontend/src/pages/LucroList.tsx:111-127 | for a real calendar date, the first fortnight keeps exactly the rows whose stored day is at most 15 |
| LucroList.NoDateNoFortnight | frontend/src/pages/LucroList.tsx:111-127 | a row without a truthy day or month passes every fortnight choice |
| LucroList.OtherYearHidesAll | frontend/src/pages/LucroList.tsx:150-162 | a full date in another year than the current one hides every row |
| LucroList.LucroTotalMes | frontend/src/pages/LucroList.tsx:170-173 | the filtered profit plus the profit of the hidden rows is the profit of all rows, and with every field blank it is the profit of all rows |
| LucroList.NextOrdem | frontend/src/pages/LucroList.tsx:175-177 | clicking a new column sorts ascending, and clicking the same column flips the direction |
| LucroList.ClickTwiceRestores | frontend/src/pages/LucroList.tsx:176 | clicking the same column twice restores the direction |
| LucroList.OrdenarPorQuantidade | frontend/src/pages/LucroList.tsx:175-188 | sorting by quantity returns a permutation of the rows ordered by quantity in the new direction |
| LucroList.InsertUnique | frontend/src/pages/LucroList.tsx:198-205 | adding a month to the sorted distinct labels keeps them sorted and distinct, and adds exactly that month |
| LucroList.Meses | frontend/src/pages/LucroList.tsx:198-205 | the chart labels are strictly sorted and are exactly the non-empty months of the rows |
| LucroList.Valores | frontend/src/pages/LucroList.tsx:207-211 | there is one value per label, and each is the profit of the rows stored under that month |
| LucroList.ChartConservesProfit | frontend/src/pages/LucroList.tsx:197-211 | the chart values add up to the profit of the rows that have a month |
| LucroList.BucketsSum | frontend/src/pages/LucroList.tsx:207-211 | over distinct labels, the buckets add up to the profit of the rows whose month is among them |
| Grouping.Find | frontend/src/pages/LucroList.tsx:349 | the lookup finds a line with the key, or reports that no line has it |
| Grouping.GroupBy | frontend/src/pages/LucroList.tsx:343-357 | for any key: line keys are distinct, each line holds exactly the profit of the rows with its key and carries the labels of one of them, and every row's key has a line |
| Grouping.GroupByConserves | frontend/src/pages/LucroList.tsx:343-357 | the lines add up to the profit of all rows |
| Grouping.Agrupar | frontend/src/pages/LucroList.tsx:340-357 | the table as the page builds it adds up to the profit of the rows it was given |
| Grouping.AgruparMatchesLucroTotalMes | frontend/src/pages/LucroList.tsx:169-173 | the table of the filtered rows adds up to the profit total the page shows for the same filters |
| Grouping.KeyCollisionMergesPairs | frontend/src/pages/LucroList.tsx:345 | two different (salesperson, store) pairs whose keys collide share one line, under the first pair's labels, holding both pairs' profit |
| Grouping.AgruparPorPar | frontend/src/pages/LucroList.tsx:340-357 | keyed by the pair: lines have distinct labels, each holds exactly its pair's profit, every row's pair has a line, and the lines add up to the total |

## Left out

- HTTP routing, CORS, environment and every Prisma call. The tables are maps with auto-increment counters, and each handler body is a function.
- Concurrency and partial failure. Each handler is one atomic transition, so the lost-update races between a stock read and its write are not modelled.
- Floating point. Money is `real`, so double rounding artefacts and `Prisma.Decimal` conversion are not modelled. `toFixed(2)` is exact over the reals, and is valid only for magnitudes below 10^21, where JavaScript switches to exponent notation.
- `Number` on inputs is modelled only for digit strings. A request quantity is `Option<int>`. For create, `None` stands for a NaN quantity. For the preview, `None` stands for a missing quantity, which `quant_saida || 1` reads as 1; a truthy non-numeric preview quantity, which gives NaN totals there, is not modelled. Fractional, signed and exponent forms are not modelled.
- Estoque.PutEstoque: the table is taken to have a unique index on `descricao`, which the source does not show. The handler does no duplicate check of its own: it writes `data.descricao || itemAtual.descricao` and fails only in its catch. Without the index, a rename onto another row's description succeeds and leaves two rows with one description, and a later `POST /estoque` merges into whichever of them `findFirst` returns. The model does not cover that state: `Valid` excludes it.
- Estoque.DeleteEstoque: the foreign key from orders (`estoqueId`) is not modelled; the unique index on `descricao` assumed under Estoque.PutEstoque is the only database constraint in the model. A delete of an existing code always succeeds here, whereas the database may refuse one that orders still reference (through `estoqueId`), which the handler answers with 500.
- Pedidos.CreatePedido: a non-numeric quantity is a failure of the whole request. The database driver's exact behaviour on NaN is not part of this model.
- `toLowerCase` covers ASCII and the Latin-1 capitals only. Other scripts are left as they are.
- Text.LexLess: characters are compared by code point. JavaScript's `<` compares UTF-16 code units, which orders characters above U+FFFF differently. The model's order is that of JavaScript only for strings without such characters.
- `new Date` is modelled only for its day-of-month result, with month and day rollover. The range limit of `Date` is not modelled.
- LucroList's start-date filter (`dataInicio`) compares `Date` objects and is taken as blank.
- The day and year chart series, and the chart configuration, are not modelled.
- LucroList.OrdenarPorQuantidade: only the numeric quantity column is modelled. The text columns sort with `localeCompare`, whose locale collation is not part of this model.
- The server clock and the current year are parameters (`Pedidos.Clock`, `anoAtual`).
- PDF and XLSX export formatting, `toLocaleString` currency text, JSX and React state wiring are not modelled. Only the grouping inside the PDF export is modelled.
- The front end sends `localidade` but never `saida_loja`. The store used by the price rules is a separate input here, and the page's payload is not wired in.
- `pedidosFiltradosPorData` and `pedidosFiltradosPorTexto` (frontend/src/pages/PedidosList.tsx:153-196) are computed but never rendered.
- The stock page, the app shell and the menu are interface-only and not modelled. So are `GET` handlers and the compiled server bundle.
- Pedidos.EditedOrder: the edited `descricao`, `responsavel` and `localidade` are taken as sent. Whatever the database does with a non-string value is not modelled.
- Calendar.DayOfMonth: years 0 to 99 expand to 1900 to 1999 as `Date` does. Years are otherwise unbounded.

## Findings

| source | as written | input that shows it | evidently intended | confidence | as-written member | corrected member |
|---|---|---|---|---|---|---|
| frontend/src/pages/LucroList.tsx:340-357 | groups are keyed by the string `${responsavel}__${loja}` | salesperson "Ana__Centro" at store "Loja", and salesperson "Ana" at store "Centro__Loja": both keys are "Ana__Centro__Loja" | one line per (salesperson, store) pair | not executed | Grouping.KeyCollisionMergesPairs | Grouping.AgruparPorPar |
