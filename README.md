# cn-calculator: the MainTable row engine

The `MainTable` component of cn-calculator is a spreadsheet-like form. Each
shipment line item is a row with an id, an index name, a quantity, a price,
a CN (tariff) code and, after a conversion, a price in pounds (`priceGB`).
The component keeps the rows in React state. Its handlers replace the rows:

- edit one cell;
- append a row;
- convert every price at the exchange rate fetched for a chosen date.

On submit, the rows are grouped by the first four characters of their CN
code. For each group the quantities and prices are summed. Three column
totals are computed on every render.

This project models that engine in Dafny and proves its properties:

- `JsValues`: the JavaScript number semantics the code relies on. A number
  is a finite value or `NaN`. `+` absorbs `NaN`. `0` and `NaN` are falsy.
  `parseInt` of a number drops its fraction toward zero.
- `Rows`: the pure list operations the handlers pass to `setRows`, and the
  three `reduce` totals. A quantity or price cell is either `''` (`Blank`) or
  a number. A CN code is either text or the number that `parseFloat` made of
  it.
- `CnGroups`: `calculateCnGroups`.
  - `Fold` is a specification function over the rows, with two variants of
    the bucket guard: as written, and corrected (see Findings).
  - Two loop methods (`CalculateCnGroupsAsWritten`, `CalculateCnGroups`)
    mirror the source's `forEach` over the two mutable dictionaries, and are
    proved equal to the specification. `HandleSubmit` runs the loop as
    written; `HandleSubmitCorrected` runs the corrected one.
  - A code that is not text makes `substring` throw. The model returns this
    as `Failure(CodeNotText(i))` for the first such row `i`.
- `Component`: the class `MainTable`, whose fields are the component's
  state (`rows`, `cnGroups`, `priceSummary`, `exchangeRate`,
  `conversionDate`, `exchangeRateDisplay`). Each handler is a method that
  changes only the fields it sets.
  - The rate request is a parameter `response`: a failure, or the list of
    `mid` values of the reply. A reply with no `rates` list behaves like an
    empty list.

`parseFloat` of the text typed into a cell is a function parameter
`parseFloat: string -> Number`. The model makes no claim about how text is
parsed.

Some behaviours of the code a reader might not expect:

- A row without a numeric quantity makes `totalQuantity` `NaN`. It does not
  count as zero: `parseInt` has no `|| 0` fallback at lines 69 and 101. See
  `TotalQuantityIsNaN`.
- In the grouping, the guard at line 65 treats a `NaN` running quantity as a
  bucket to reopen. As written, a group holds what it accumulated since its
  running quantity was last 0 or `NaN`, and its quantity is `NaN` exactly when
  the last row of the group has no numeric quantity
  (`AsWrittenGroupQuantityIsNaN`). With the corrected guard, one row without
  a numeric quantity makes its group's quantity `NaN` (`GroupQuantityIsNaN`).
- A row without a numeric price gets a `NaN` `priceGB` from the conversion
  (line 92). Such rows are not skipped.
- A CN code is not stringified before grouping. Once typed, it is a number,
  and grouping throws (lines 35 and 64). See `EditedCodeBreaksGrouping`.
- Line values, converted line values and file export/import do not exist in
  the code, and are not modelled.
- `priceGB` is not cleared when a price is edited. `SetField` keeps it, as
  the code does.

## Model

| member | source | states |
|---|---|---|
| `JsValues.Truncate` | src/components/MainTable/MainTable.js:101 | the integer read back by `parseInt` from a number lies within 1 of it, on the side of zero |
| `Rows.DefaultRows` | src/components/MainTable/MainTable.js:9-15 | the table with nothing saved has 20 rows, row i has id i+1, and every row has empty index name, quantity, price and code, with no `priceGB` |
| `Rows.AddRow` | src/components/MainTable/MainTable.js:82 | one row is appended and the earlier rows are unchanged; the new row has id old length + 1, quantity 0, price 0, empty name and code |
| `Rows.AddRowKeepsIdsSequential` | src/components/MainTable/MainTable.js:82 | appending keeps "row i has id i+1" |
| `Rows.SetField` | src/components/MainTable/MainTable.js:35-38 | only the edited field changes, and the id is kept; `indexName` stores the raw text; quantity, price and CN code store the `parseFloat` result |
| `Rows.HandleInputChange` | src/components/MainTable/MainTable.js:33-41 | the length is kept, every other row is unchanged, and the row at `rowIndex` is that row with the one field set |
| `Rows.HandleInputChangeKeepsIdsSequential` | src/components/MainTable/MainTable.js:36-40 | an edit keeps "row i has id i+1" |
| `Rows.PriceNumber` | src/components/MainTable/MainTable.js:92 | `parseFloat(row.price)` is a finite number exactly when the price cell holds one; `''` reads as NaN |
| `Rows.CalculatePriceGB` | src/components/MainTable/MainTable.js:89-97 | with a rate <= 0 the rows are returned unchanged; otherwise the length is kept and each row only gets `priceGB = price / rate`, NaN where the price is not a number |
| `Rows.CalculatePriceGBKeepsIdsSequential` | src/components/MainTable/MainTable.js:89-96 | the conversion keeps "row i has id i+1" |
| `Rows.CalculatePriceGBIdempotent` | src/components/MainTable/MainTable.js:89-96 | converting twice at the same rate gives the same rows as converting once |
| `Rows.QuantityValue` | src/components/MainTable/MainTable.js:101 | `parseInt(quantity)` is NaN exactly when the quantity cell is `''` or NaN |
| `Rows.QuantityValueTruncates` | src/components/MainTable/MainTable.js:101 | a numeric quantity counts as its integer part: same sign, never further from zero, less than 1 away |
| `Rows.PriceValue` | src/components/MainTable/MainTable.js:99 | the price as summed (falling back to 0) is always a number: the price when it is truthy, 0 otherwise |
| `Rows.PriceGBValue` | src/components/MainTable/MainTable.js:100 | the converted price as summed (falling back to 0) is always a number: the converted price when it is truthy, 0 otherwise |
| `Rows.Sum` | src/components/MainTable/MainTable.js:99-101 | the left-to-right `reduce` from 0 that the three totals perform; its properties are `SumIsNaN`, `SumSnoc` and `SumOnlyFirst` |
| `Rows.TotalQuantity` | src/components/MainTable/MainTable.js:101 | `totalQuantity`, the reduce over `parseInt(row.quantity)`; its properties are `TotalQuantityIsNaN`, `AddRowKeepsTotals` and `UnreadableQuantityPoisonsTotal` |
| `Rows.TotalPrice` | src/components/MainTable/MainTable.js:99 | `totalPrice`, the reduce over the price with 0 as fallback; its properties are `TotalPriceIsFinite` and `AddRowKeepsTotals` |
| `Rows.TotalPriceGB` | src/components/MainTable/MainTable.js:100 | `totalPriceGB`, the reduce over the converted price with 0 as fallback; its properties are `TotalPriceGBAfterConversion` and `AddRowKeepsTotals` |
| `Rows.SumIsNaN` | src/components/MainTable/MainTable.js:99-101 | a `reduce` sum is NaN exactly when one row contributes NaN |
| `Rows.SumSnoc` | src/components/MainTable/MainTable.js:99-101 | appending a row adds its value to the `reduce` sum |
| `Rows.SumOnlyFirst` | src/components/MainTable/MainTable.js:99-101 | a `reduce` sum where only the first row contributes a number is that number |
| `Rows.TotalQuantityIsNaN` | src/components/MainTable/MainTable.js:101 | `totalQuantity` is NaN exactly when some row has no numeric quantity |
| `Rows.TotalPriceIsFinite` | src/components/MainTable/MainTable.js:99 | `totalPrice` is always a number: missing prices count as 0 |
| `Rows.TotalPriceGBAfterConversion` | src/components/MainTable/MainTable.js:89-100 | after a conversion at a positive rate, `totalPriceGB` is `totalPrice` divided by the rate |
| `Rows.AddRowKeepsTotals` | src/components/MainTable/MainTable.js:99-101 | a row added by `addRow` leaves all three totals unchanged |
| `Rows.UnreadableQuantityPoisonsTotal` | src/components/MainTable/MainTable.js:101 | typing a quantity that `parseFloat` cannot read makes `totalQuantity` NaN |
| `CnGroups.GroupKey` | src/components/MainTable/MainTable.js:64 | the key is a prefix of the code, of length 4, or the whole code when it is shorter |
| `CnGroups.OpensBucket` | src/components/MainTable/MainTable.js:65 | the guard: as written a bucket is (re)opened when its key is new or its running quantity is 0 or NaN; corrected, only when its key is new. Its effect is stated by `ReopenedBucket`, `LoopPass` and `AgreeStep` |
| `CnGroups.Accumulate` | src/components/MainTable/MainTable.js:65-70 | one pass of the loop body adds the row's key to both dictionaries and adds no other key |
| `CnGroups.AccumulateCorrected` | src/components/MainTable/MainTable.js:65-70 | with the corrected guard, a row adds its quantity and price to its bucket, which starts at 0 when new, and no other bucket changes |
| `CnGroups.LoopPass` | src/components/MainTable/MainTable.js:65-70 | the loop body's two steps, opening the bucket at 0 and then `+=`, are one pass |
| `CnGroups.Fold` | src/components/MainTable/MainTable.js:60-74 | the two dictionaries always have the same keys |
| `CnGroups.FirstNonText` | src/components/MainTable/MainTable.js:63-64 | the row where `substring` throws is the first row whose code is not text |
| `CnGroups.Aggregate` | src/components/MainTable/MainTable.js:60-74 | grouping succeeds exactly when every code is text; otherwise it fails at a row whose code is not text |
| `CnGroups.FoldKeys` | src/components/MainTable/MainTable.js:63-68 | the buckets are exactly the group keys of the rows: none is pre-seeded, none is extra |
| `CnGroups.GroupTotals` | src/components/MainTable/MainTable.js:69-70 | with the corrected guard, each group's quantity is `totalQuantity` over its own rows, and its price is `totalPrice` over its own rows |
| `CnGroups.RowsInExactly` | src/components/MainTable/MainTable.js:63-64 | a group's rows are exactly the rows whose text code has its key |
| `CnGroups.GroupRowsQuantityIsNaN` | src/components/MainTable/MainTable.js:69 | the quantity sum over a group's rows is NaN exactly when one of them has no numeric quantity |
| `CnGroups.GroupQuantityIsNaN` | src/components/MainTable/MainTable.js:69 | with the corrected guard, a group's quantity is NaN exactly when one of its rows has no numeric quantity |
| `CnGroups.AsWrittenGroupQuantityIsNaN` | src/components/MainTable/MainTable.js:65-69 | as written, a group's quantity is NaN exactly when the last row of the group has no numeric quantity, since a NaN running quantity reopens the bucket |
| `CnGroups.BlankQuantitiesAsWritten` | src/components/MainTable/MainTable.js:60-74 | as written, rows with empty codes and empty quantities give the one group `""` with quantity NaN and the last row's price alone |
| `CnGroups.EmptyCodesOneKey` | src/components/MainTable/MainTable.js:64 | rows whose codes are all empty form the single group `""` |
| `CnGroups.BlankTableGroups` | src/components/MainTable/MainTable.js:60-74 | with the corrected guard, rows with empty codes and blank quantities give the one group `""` with quantity NaN |
| `CnGroups.DefaultTableGroups` | src/components/MainTable/MainTable.js:60-74 | submitting the default table gives the one group `""` with quantity NaN under either guard, and as written with price 0 |
| `CnGroups.GroupTotalsAddUp` | src/components/MainTable/MainTable.js:60-74 | with the corrected guard, the group quantities sum to `totalQuantity` and the group prices sum to `totalPrice` |
| `CnGroups.FirstRowOpensBucket` | src/components/MainTable/MainTable.js:65-70 | a one-row table opens one bucket holding that row's quantity and price |
| `CnGroups.ReopenedBucket` | src/components/MainTable/MainTable.js:65-68 | as written, a bucket whose running quantity is 0 or NaN is restarted at the next row's values |
| `CnGroups.SecondPassAsWritten` | src/components/MainTable/MainTable.js:65-70 | as written, the second row of a group whose first quantity is falsy replaces the first row's quantity and price |
| `CnGroups.SecondPassCorrected` | src/components/MainTable/MainTable.js:65-70 | with the corrected guard, the second row of a group adds its price to the first row's price |
| `CnGroups.FalsyQuantityDropsPriceAsWritten` | src/components/MainTable/MainTable.js:63-71 | as written, two rows of one group whose first quantity is falsy give a group quantity and price equal to the second row's alone |
| `CnGroups.CorrectedKeepsBothPrices` | src/components/MainTable/MainTable.js:63-71 | with the corrected guard, the same two rows give a group price equal to the sum of both prices |
| `CnGroups.AsWrittenDropsPrices` | src/components/MainTable/MainTable.js:60-74 | two concrete tables where, as written, the group price falls short of `totalPrice`: 5 against 15, and, for the default table with a price of 10 typed into row 1, 0 against 10 |
| `CnGroups.AsWrittenAgreesOnPositiveQuantities` | src/components/MainTable/MainTable.js:65-69 | when every quantity reads as a positive integer, the guard as written gives the corrected result, and all group quantities stay positive |
| `CnGroups.AgreeStep` | src/components/MainTable/MainTable.js:65-69 | while running quantities are positive, both guards take the same pass, and it keeps them positive |
| `CnGroups.CalculateCnGroupsAsWritten` | src/components/MainTable/MainTable.js:60-74 | the `forEach` loop with the guard `!groups[cnGroup]` computes `Aggregate` with that guard: the dictionaries, or the failure at the first code that is not text |
| `CnGroups.CalculateCnGroups` | src/components/MainTable/MainTable.js:60-74 | the same loop, with a bucket opened only for a new key, computes the corrected `Aggregate` |
| `CnGroups.EditedCodeBreaksGrouping` | src/components/MainTable/MainTable.js:35 | once a CN code has been typed into a row, grouping fails, whichever guard is used |
| `Component.RateAfterFetch` | src/components/MainTable/MainTable.js:43-58 | the rate becomes the first `mid` when the reply has one; it becomes 0 with "N/A" when the list is empty; it is left as it was when the request fails |
| `Component.EmptyRatesDisableConversion` | src/components/MainTable/MainTable.js:51-54 | after a reply whose `rates` list is empty or missing, the rate is 0 and a conversion leaves every row as it was |
| `Component.FailedFetchKeepsRate` | src/components/MainTable/MainTable.js:55-57 | after a failed request, a conversion still uses the previous rate |
| `Component.MainTable.constructor` | src/components/MainTable/MainTable.js:7-21 | the initial state: the default table, no groups, rate 0, no date, nothing displayed |
| `Component.MainTable.HandleInputChange` | src/components/MainTable/MainTable.js:33-41 | the rows become the edited rows; the ids stay sequential and nothing else changes |
| `Component.MainTable.AddRow` | src/components/MainTable/MainTable.js:81-83 | the rows get one appended row; the ids stay sequential and nothing else changes |
| `Component.MainTable.CalculatePriceGB` | src/components/MainTable/MainTable.js:89-97 | the rows are converted at the current rate, and are untouched when the rate is not positive |
| `Component.MainTable.HandleSubmit` | src/components/MainTable/MainTable.js:76-79 | with text codes, the two summaries become the grouping with the guard as written; otherwise the first non-text row is reported and both summaries are kept; the ids stay sequential |
| `Component.MainTable.HandleSubmitCorrected` | src/components/MainTable/MainTable.js:76-79 | the same handler running the grouping with the corrected guard |
| `Component.MainTable.FetchExchangeRate` | src/components/MainTable/MainTable.js:43-58 | the rate and its display become what `RateAfterFetch` gives for the reply; the state stays valid |
| `Component.MainTable.HandleDateChange` | src/components/MainTable/MainTable.js:23-27 | the date is stored; the rate is fetched only when the date changed and is not empty, and is otherwise kept; the state stays valid |

## Left out

- Persistence in `localStorage` (lines 8 and 30) is left out: it is browser I/O plus JSON. Only the default table used when nothing is saved is modelled, so rows of any other shape loaded from storage are not modelled.
- The network request to the rates API is left out, and so is the order in which concurrent requests complete. The reply is a parameter of `FetchExchangeRate` and `HandleDateChange`, and `console.error` is dropped.
- React plumbing is not modelled: `useState`, `useEffect`, event objects and `preventDefault`. Each handler is a method on the state.
- Rendering is left out: the JSX, the `toFixed(2)` formatting, and the "Exchange Rate: ..." text. The display is the datatype `RateDisplay`.
- Numbers are exact reals. IEEE-754 rounding, infinities and `-0` are not modelled.
- `parseFloat` of typed text is a parameter, not a parser.
- JsValues.Truncate: a number whose decimal rendering uses exponent notation (magnitude at least 1e21, or below 1e-6) is read by `parseInt` from its mantissa digits; the model truncates the value instead.
- `src/App.js` only composes components and is not part of this model.
- What the rates service returns for a date with no published rate is not modelled: the model only distinguishes a failed request or unreadable body from a reply carrying a (possibly empty) `rates` list.
- CnGroups.GroupKey: `substring(0, 4)` counts UTF-16 code units, while the model counts Unicode scalar values; the two differ only for characters outside the Basic Multilingual Plane. The only text code the modelled handlers produce is `""`.
- Keys of the group dictionaries are at most four characters long. So no key can collide with an inherited `Object.prototype` property, and the dictionaries are modelled as plain maps.

## Findings

| source | as written | input that shows it | evidently intended | confidence | as-written member | corrected member |
|---|---|---|---|---|---|---|
| src/components/MainTable/MainTable.js:65 | the guard `!groups[cnGroup]` also holds for a bucket whose running quantity is 0 or NaN; the bucket is then reset to 0, and the prices already summed into it are lost | the default table with a price of 10 typed into row 1 and every quantity left empty: every row reopens the bucket `""`, so `priceSummary` is `{"": 0}` while `totalPrice` is 10; also two rows with codes "1234" and "1234AB", quantities 0 and 1, prices 10 and 5: the group price is 5, while `totalPrice` is 15 | a bucket is initialised only the first time its key is met, so the group quantities add up to `totalQuantity` and the group prices to `totalPrice` | not executed; the behaviour of line 65 follows from JavaScript truthiness | `CnGroups.AsWrittenDropsPrices` | `CnGroups.GroupTotalsAddUp` |
