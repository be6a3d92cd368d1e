# AnalisisPredictivoVentas — a verified model of its computational core

AnalisisPredictivoVentas is a sales-analytics web application. It imports
sales-export files (JSON, XML, CSV) into a relational sales schema, serves
aggregates to chart widgets, and suggests how much of each product to
reorder. This project models, in Dafny, the parts of it that compute
something, and proves what they promise:

- **Replenishment estimator** (`Replenishment`, `Numeric`): `CalcularAsync`.
  It keeps the sold lines of the last `ventana` weeks (optionally of one
  warehouse), sums them per product and week bucket, takes the mean and
  sample standard deviation of the weekly sums, resolves each product's
  policy (default lead 1, coverage 2, service 0.95), maps the service level
  to z with the step table, and computes the base-stock target
  `ceil(mean·P + z·sd·√P)`. It then reports the products with a positive
  rounded mean, largest order first. Its catalogue loop is a method proved
  against the functional pipeline `Replenish`.
- **Chart post-processing** (`Charts`):
  - the gender-label normaliser;
  - zero-filled month series;
  - the warehouse × month heatmap, with loops proved against its grid function;
  - the summary ratios;
  - the seller comparison (percentages, 2-decimal rounding, stable ranking);
  - the seller trend over an `Enumerable.Range` of months, including its 32-bit overflow;
  - the top-products-by-warehouse chart.
- **Importer** (`ImportDtos`, `ImportCsv`, `Importer`, `Import`):
  - the CSV reader: header normaliser, column lookup, grouping of rows into sales, lines and payments;
  - the keyed upserts of warehouses, customers, employees, products and payment methods;
  - the per-sale loop of `ImportarAsync`, with its idempotent replacement of a sale already imported.

  `Importer` states the whole import as functions over the tables. `Import`
  holds the `ImportService` and `ImportResult` classes: their methods change
  the tables and counters in place and are proved equal to those functions.
- **Chat-bot wizard** (`ChatBot`): a class whose fields are the wizard state
  (mode, `reqIdx`, `optIdx`, `askingOptional`, params). Its invariant says
  every stored answer fits its field and belongs to a field already asked.
  The query is split at its `await`: `FetchTop` sends it and leaves the state
  waiting (mode "top", both indices 3), and `Settle` is the reply and the
  `finally` that resets the wizard, whatever happened in between.
  A log of the bot's messages records what each step shows the user.
- **Email normaliser** (`Email`).
- **Top-products page helpers** (`SalesTop`): the query-string builder and
  its read-back, `getTopN`, the selection summary, and the checkbox selection
  set (a class).
- `Text` holds the string primitives the sources use: white-space trimming by
  the .NET and JavaScript rules, case mapping, `parseInt`, the
  `/[,\s;]+/` split, and `join`. `Wrappers` holds `Option` and `Result`.

Conventions:
- Money and quantities (C# `decimal`, JavaScript numbers) are modelled as real
  numbers.
- `Math.Round` rounds half to even, the .NET default.
- Dates are integers: day numbers counted from 1 January of year 1 in the estimator, ticks in the importer.
- Database tables are maps keyed by their natural key, or sequences whose
  index plays the role of the generated id.
- Every query whose result the code only post-processes is an input sequence
  of already grouped rows.

## Model

| member | source | states |
|---|---|---|
| Replenishment.Cutoff | AnalisisPredictivoVentas/Services/ReabastecimientoService.cs:23 | the window starts at today plus the unchecked int32 product −7·ventana; when that product does not overflow the start is exactly 7·ventana days before today; the estimate fails with AddDays's exception when the start is not a date of years 1 to 9999 |
| Replenishment.CutoffWraps | AnalisisPredictivoVentas/Services/ReabastecimientoService.cs:23 | a window of 306783379 weeks wraps the product to +2147483643 days, so the estimate fails for every today |
| Replenishment.CutoffBeforeYearOne | AnalisisPredictivoVentas/Services/ReabastecimientoService.cs:23 | a window reaching back before 1 January of year 1 makes the estimate fail |
| Replenishment.Window | AnalisisPredictivoVentas/Services/ReabastecimientoService.cs:27-32 | a line is kept iff it is dated on or after the cutoff (no upper bound) and, when a warehouse is given, belongs to it |
| Replenishment.Aggregate | AnalisisPredictivoVentas/Services/ReabastecimientoService.cs:35-44 | each (product, week bucket) pair occurs exactly once, and the pairs are exactly those of the filtered lines |
| Replenishment.AggregateTotals | AnalisisPredictivoVentas/Services/ReabastecimientoService.cs:42-43 | the quantity of each (product, bucket) row is the sum of that product's line quantities in that bucket |
| Replenishment.WeeksSumToTotal | AnalisisPredictivoVentas/Services/ReabastecimientoService.cs:47-51 | a product's weekly sums add up to its total filtered quantity |
| Replenishment.WeeksCount | AnalisisPredictivoVentas/Services/ReabastecimientoService.cs:113 | VentanaSemanas, the number of a product's weekly observations, equals the number of distinct buckets it sold in |
| Replenishment.WeeksOfEmptyAggregate | AnalisisPredictivoVentas/Services/ReabastecimientoService.cs:89-91 | a product without sold lines has no weekly observations, so it takes the mean-0 / sd-0 branch |
| Replenishment.Statistics | AnalisisPredictivoVentas/Services/ReabastecimientoService.cs:52-55 | mean·n = sum (mean 0 with no observations); sd ≥ 0; sd = 0 when n ≤ 1; otherwise sd²·(n−1) is the sum of squared deviations (the sample standard deviation) |
| Replenishment.SteadyDemand | AnalisisPredictivoVentas/Services/ReabastecimientoService.cs:52-55 | constant weekly demand c gives mean c and standard deviation 0 |
| Replenishment.MeanNonNegative | AnalisisPredictivoVentas/Services/ReabastecimientoService.cs:52 | non-negative weekly sums give a non-negative mean |
| Replenishment.StatisticsExample | AnalisisPredictivoVentas/Services/ReabastecimientoService.cs:52-55 | weeks 10, 12, 14 give mean 12 and sample standard deviation 2 (the n−1 divisor) |
| Replenishment.ZFromService | AnalisisPredictivoVentas/Services/ReabastecimientoService.cs:77-82 | z always lies between 1.282 and 2.576 |
| Replenishment.ZMonotone | AnalisisPredictivoVentas/Services/ReabastecimientoService.cs:77-82 | a higher service level never gives a smaller z |
| Replenishment.ZSteps | AnalisisPredictivoVentas/Services/ReabastecimientoService.cs:77-82 | the thresholds are inclusive: 0.90 gives 1.282 and 0.9001 gives 1.645; 0.95 gives 1.645 and 0.9501 gives 1.880; 0.97 gives 1.880; 0.98 gives 2.054; 0.99 gives 2.326 and 0.9901 gives 2.576 |
| Replenishment.ToPolicyMap | AnalisisPredictivoVentas/Services/ReabastecimientoService.cs:68-74 | on success the map's keys are exactly the products of the policy rows |
| Replenishment.ToPolicyMapSucceeds | AnalisisPredictivoVentas/Services/ReabastecimientoService.cs:71-74 | building the policy map succeeds iff no product has two policy rows (ToDictionaryAsync throws on a duplicate key) |
| Replenishment.ToPolicyMapValues | AnalisisPredictivoVentas/Services/ReabastecimientoService.cs:71-73 | on success each row's product maps to that row's lead time, coverage and service level |
| Replenishment.ToPolicyMapFirstDuplicate | AnalisisPredictivoVentas/Services/ReabastecimientoService.cs:71-74 | a failure names the product of the first row whose product already had a row |
| Replenishment.ProtectionPeriod | AnalisisPredictivoVentas/Services/ReabastecimientoService.cs:97 | P is lead + coverage as unchecked int32 addition: the sum when it is in range, wrapped otherwise |
| Replenishment.ProtectionPeriodWraps | AnalisisPredictivoVentas/Services/ReabastecimientoService.cs:97-99 | lead = coverage = 2^30 wraps P to −2^31, so the suggestion fails on the square root |
| Replenishment.Suggest | AnalisisPredictivoVentas/Services/ReabastecimientoService.cs:97-123 | succeeds iff the int32 P = lead + coverage is ≥ 0, otherwise fails naming the product (the square root of a negative P cannot be converted to decimal); the caption is "code - name"; z comes from the step table; mean, sd, protection demand and safety stock are reported rounded to 3 decimals while the target is the least integer ≥ mean·P + z·sd·√P of the unrounded values; the recommended quantity equals the target |
| Replenishment.TargetNonNegative | AnalisisPredictivoVentas/Services/ReabastecimientoService.cs:97-102 | non-negative statistics and an int32 P ≥ 0 give a non-negative target stock |
| Replenishment.TargetMonotoneInService | AnalisisPredictivoVentas/Services/ReabastecimientoService.cs:98-102 | raising the service level never lowers the target stock |
| Replenishment.SafetyStockMonotone | AnalisisPredictivoVentas/Services/ReabastecimientoService.cs:101 | safety stock z·sd·√P is non-decreasing in z |
| Replenishment.SafetyStockNonNegative | AnalisisPredictivoVentas/Services/ReabastecimientoService.cs:101 | safety stock is never negative for z, sd and P ≥ 0 |
| Replenishment.DefaultPolicyExample | AnalisisPredictivoVentas/Services/ReabastecimientoService.cs:94-102 | a product without a policy row gets P = 3 and z = 1.645; with mean 10 and sd 2 its target is 36 = ceil(30 + 1.645·2·√3) |
| Replenishment.BuildAll | AnalisisPredictivoVentas/Services/ReabastecimientoService.cs:85-124 | one suggestion per catalogue product, in catalogue order, each the product's own suggestion; fails iff some product's suggestion fails |
| Replenishment.BuildAllFailure | AnalisisPredictivoVentas/Services/ReabastecimientoService.cs:87-124 | once a prefix of the catalogue fails, the whole loop fails with that same error |
| Replenishment.BuildAllSnoc | AnalisisPredictivoVentas/Services/ReabastecimientoService.cs:87-124 | one more catalogue product appends its suggestion, or fails with its error |
| Replenishment.KeepSold | AnalisisPredictivoVentas/Services/ReabastecimientoService.cs:128 | a suggestion is kept iff its rounded weekly mean is positive |
| Replenishment.SortDesc | AnalisisPredictivoVentas/Services/ReabastecimientoService.cs:129 | a permutation of the suggestions, ordered by recommended quantity, non-increasing |
| Replenishment.KeepSoldSub | AnalisisPredictivoVentas/Services/ReabastecimientoService.cs:128 | the filter only drops suggestions: what it keeps is a sub-multiset of its input |
| Replenishment.KeepSoldStable | AnalisisPredictivoVentas/Services/ReabastecimientoService.cs:128 | the filter keeps the relative order of what it keeps: filtering and then picking one recommended quantity equals picking it and then filtering |
| Replenishment.KeepSoldDistinct | AnalisisPredictivoVentas/Services/ReabastecimientoService.cs:128 | filtering a list with one suggestion per product still has one suggestion per product |
| Replenishment.SortDescStable | AnalisisPredictivoVentas/Services/ReabastecimientoService.cs:129 | the sort is stable relative to its input: the suggestions sharing a recommended quantity come out in the order they went in |
| Replenishment.SortDescDistinct | AnalisisPredictivoVentas/Services/ReabastecimientoService.cs:129 | sorting a list with one suggestion per product still has one suggestion per product |
| Replenishment.Calculate | AnalisisPredictivoVentas/Services/ReabastecimientoService.cs:18-131 | the imperative estimator, with its loop over the catalogue, returns exactly the functional pipeline's result |
| Replenishment.ReplenishSorted | AnalisisPredictivoVentas/Services/ReabastecimientoService.cs:127-130 | a successful result is sorted by recommended quantity, largest first |
| Replenishment.ReplenishFails | AnalisisPredictivoVentas/Services/ReabastecimientoService.cs:23-102 | the estimator fails iff the window does not start at a date, two policy rows share a product, or some catalogue product's resolved policy has a negative int32 protection period |
| Replenishment.ReplenishOnlySold | AnalisisPredictivoVentas/Services/ReabastecimientoService.cs:127-128 | every reported product sold at least one line inside the window (and warehouse) |
| Replenishment.ReplenishStable | AnalisisPredictivoVentas/Services/ReabastecimientoService.cs:87-130 | the suggestions built per catalogue product follow the catalogue order, and among the reported suggestions with the same recommended quantity the order is that catalogue order (with the unsold ones dropped) |
| Replenishment.ReplenishOnePerProduct | AnalisisPredictivoVentas/Services/ReabastecimientoService.cs:87-130 | a catalogue with distinct product ids (its primary key) yields at most one suggestion per product |
| Replenishment.ReplenishComplete | AnalisisPredictivoVentas/Services/ReabastecimientoService.cs:87-128 | every catalogue product whose rounded mean is positive is reported |
| Numeric.Ceiling | AnalisisPredictivoVentas/Services/ReabastecimientoService.cs:102 | decimal.Ceiling: the least integer not below x |
| Numeric.CeilingLeast | AnalisisPredictivoVentas/Services/ReabastecimientoService.cs:102 | no integer at or above x is smaller than the ceiling |
| Numeric.RoundToEven | AnalisisPredictivoVentas/Services/ReabastecimientoService.cs:111 | rounds to a nearest integer, and to the even one on a tie |
| Numeric.RoundAtClose | AnalisisPredictivoVentas/Services/ReabastecimientoService.cs:111-120 | rounding to d decimals moves a value by at most half a unit of its last place |
| Charts.CutAtDash | AnalisisPredictivoVentas/Controllers/ChartsController.cs:490-491 | the text before the first '-' contains no '-', and a dash-free text is left as it is |
| Charts.NormalizeGender | AnalisisPredictivoVentas/Controllers/ChartsController.cs:486-502 | a gender label never contains '-' (the copy at lines 553-568 of the same file is identical and is this same function) |
| Charts.GenderBlank | AnalisisPredictivoVentas/Controllers/ChartsController.cs:488-489 | a null or white-space label becomes "(Sin género)" |
| Charts.GenderLeadingDash | AnalisisPredictivoVentas/Controllers/ChartsController.cs:488-491 | a label whose trimmed text starts with '-' becomes "" rather than the placeholder, because the blank check runs before the cut |
| Charts.GenderIgnoresCase | AnalisisPredictivoVentas/Controllers/ChartsController.cs:493-499 | dash-free labels that are equal ignoring case and spell HOMBRE, MUJER, NIÑO or NINO get the same canonical label |
| Charts.GenderKeeps | AnalisisPredictivoVentas/Controllers/ChartsController.cs:500 | a dash-free, non-blank label of any other spelling is kept, trimmed |
| Charts.GenderStable | AnalisisPredictivoVentas/Controllers/ChartsController.cs:486-502 | normalising a non-empty normalised label again gives it back |
| Charts.KnownLabelFixed | AnalisisPredictivoVentas/Controllers/ChartsController.cs:494-499 | the canonical labels Hombre, Mujer and Niño are fixed points |
| Charts.PlaceholderFixed | AnalisisPredictivoVentas/Controllers/ChartsController.cs:489 | the placeholder "(Sin género)" is a fixed point |
| Charts.MonthSeries | AnalisisPredictivoVentas/Controllers/ChartsController.cs:37-41 | a month series always has 12 entries |
| Charts.MonthSeriesHit | AnalisisPredictivoVentas/Controllers/ChartsController.cs:41 | month m's entry is the total of the aggregate for month m (months unique) |
| Charts.MonthSeriesMiss | AnalisisPredictivoVentas/Controllers/ChartsController.cs:41 | a month without an aggregate is 0 |
| Charts.SortedDistinct | AnalisisPredictivoVentas/Controllers/ChartsController.cs:168 | the ids are strictly ascending (so distinct), and exactly those given |
| Charts.AxisIds | AnalisisPredictivoVentas/Controllers/ChartsController.cs:167-169 | the heatmap's rows are the requested ids or, when none are requested, the ids that have data; strictly ascending either way |
| Charts.StoreLabelInjective | AnalisisPredictivoVentas/Controllers/ChartsController.cs:171 | distinct warehouse ids get distinct "Almacén id" labels |
| Charts.BuildHeatmap | AnalisisPredictivoVentas/Controllers/ChartsController.cs:167-187 | 12 columns and one row per axis id, labelled "Almacén id"; exactly 12·rows cells, cell k being [k mod 12, k div 12, the warehouse's month total]; max is a cell value no cell exceeds, or 0 when there are no cells |
| Charts.GridCells | AnalisisPredictivoVentas/Controllers/ChartsController.cs:173-185 | the nested loops emit the grid row by row, 12 months per row |
| Charts.GridShape | AnalisisPredictivoVentas/Controllers/ChartsController.cs:173-185 | the grid of n rows has 12·n cells, cell k being [k mod 12, k div 12, the month total of row k div 12] |
| Charts.MaxValue | AnalisisPredictivoVentas/Controllers/ChartsController.cs:187 | the maximum is at least every cell value and is attained by one |
| Charts.HeatmapMatchesSeries | AnalisisPredictivoVentas/Controllers/ChartsController.cs:126-129 | the heatmap cell of row y and month i equals month i of that warehouse's series |
| Charts.SeriesByStore | AnalisisPredictivoVentas/Controllers/ChartsController.cs:118-133 | one named series per axis id, in order, named "Almacén id" and holding the warehouse's 12 month totals |
| Charts.StoreSeriesLoop | AnalisisPredictivoVentas/Controllers/ChartsController.cs:124-133 | the foreach builds exactly one series per id, in the ids' order |
| Charts.StoreSeries | AnalisisPredictivoVentas/Controllers/ChartsController.cs:126-130 | entry i of a warehouse's series is its total for month i+1 |
| Charts.StoreSeriesTotal | AnalisisPredictivoVentas/Controllers/ChartsController.cs:126-130 | a warehouse's 12 month entries add up to its total over all rows |
| Charts.Summary | AnalisisPredictivoVentas/Controllers/ChartsController.cs:250-259 | net, discount, units and transactions are the totals of the facts; gross − discount = net; ticket·transactions = net (ticket 0 without transactions); prev·(1 + varYoY) = net when the previous net is non-zero, varYoY = 0 when it is 0 |
| Charts.SummaryGrowth | AnalisisPredictivoVentas/Controllers/ChartsController.cs:259 | with a positive previous net, varYoY is positive iff net grew, and 0 iff it stayed equal |
| Charts.Pct | AnalisisPredictivoVentas/Controllers/ChartsController.cs:672 | pct·A = (B − A)·100 when A ≠ 0; 100 when A = 0 and B > 0; 0 when A = 0 and B ≤ 0 |
| Charts.PctSign | AnalisisPredictivoVentas/Controllers/ChartsController.cs:672 | with a positive A, pct is positive iff B > A and 0 iff B = A |
| Charts.CompareRowRounded | AnalisisPredictivoVentas/Controllers/ChartsController.cs:662-691 | netoA, netoB, unitsA, unitsB, both deltas and both percentages are each within half a cent of its exact value (rounded to 2 decimals) |
| Charts.RankByKey | AnalisisPredictivoVentas/Controllers/ChartsController.cs:658-660 | the ids are permuted into non-increasing order of period A's neto, or of its units for the "unidades" metric (0 for an id without data) |
| Charts.RankByKeyStable | AnalisisPredictivoVentas/Controllers/ChartsController.cs:658-660 | the ordering is stable: ids with equal keys keep their top-N order |
| Charts.CompareSellers | AnalisisPredictivoVentas/Controllers/ChartsController.cs:647-692 | one comparison per top seller, a permutation of the top ids ranked by the chosen metric (compared ignoring case), each row the seller's own comparison of periods A and B |
| Numeric.Wrap32 | AnalisisPredictivoVentas/Controllers/ChartsController.cs:735 | a value wrapped to the 32-bit two's-complement range, as unchecked int arithmetic leaves it (also the estimator's −7·ventana and lead + coverage); an in-range value is unchanged |
| Numeric.Wrap32Congruent | AnalisisPredictivoVentas/Controllers/ChartsController.cs:735 | the wrapped value differs from the exact one by a multiple of 2^32, and it is the only in-range value that does |
| Charts.Range | AnalisisPredictivoVentas/Controllers/ChartsController.cs:735 | Enumerable.Range succeeds iff the count is non-negative and the last value does not pass int.MaxValue, yielding start, start+1, … |
| Charts.TrendOf | AnalisisPredictivoVentas/Controllers/ChartsController.cs:732-741 | a seller's trend carries its id, the label "Empleado id", and one point per month of the range, each the seller's total for that month |
| Charts.Trend | AnalisisPredictivoVentas/Controllers/ChartsController.cs:729-741 | on success, one trend per top seller, in the top sellers' order; trend j is labelled "Empleado id", has Wrap32(monthTo − monthFrom + 1) points (bounds defaulting to 1 and 12), and point k is that seller's total for month monthFrom + k (zero when there is no row) |
| Charts.TrendMonths | AnalisisPredictivoVentas/Controllers/ChartsController.cs:729-741 | with explicit bounds monthFrom ≤ monthTo whose month count fits 32 bits, the trend succeeds and each series has one point per month monthFrom..monthTo, point k being the seller's total for month monthFrom + k |
| Charts.TrendDefault | AnalisisPredictivoVentas/Controllers/ChartsController.cs:729-741 | without monthFrom and monthTo every trend covers months 1..12, point k being month k+1 |
| Charts.TrendFails | AnalisisPredictivoVentas/Controllers/ChartsController.cs:735 | with months given, the trend fails iff there are top sellers and monthTo < monthFrom − 1 (a negative count), since the range is built lazily per seller |
| Charts.PointOfHit | AnalisisPredictivoVentas/Controllers/ChartsController.cs:737-738 | a month with a row takes the first matching row's neto and units |
| Charts.PointOfMiss | AnalisisPredictivoVentas/Controllers/ChartsController.cs:738 | a month without a row is zero-filled |
| Charts.TrendMatchesMonthSeries | AnalisisPredictivoVentas/Controllers/ChartsController.cs:737-738 | the default trend's neto for month k+1 equals entry k of the seller's zero-filled month series |
| Charts.Intersect | AnalisisPredictivoVentas/Controllers/ChartsController.cs:408 | exactly the requested ids that have data, each once |
| Charts.IntersectFirstSeen | AnalisisPredictivoVentas/Controllers/ChartsController.cs:408 | the valid ids come in the order of their first occurrence in the request, as Intersect followed by Distinct keeps it |
| Charts.ValidStores | AnalisisPredictivoVentas/Controllers/ChartsController.cs:403-408 | every series warehouse was requested and has at least one fact row |
| Charts.ProductSeries | AnalisisPredictivoVentas/Controllers/ChartsController.cs:454-459 | a warehouse's series is named from the warehouse map and has one value per top product, each that product's net in that warehouse |
| Charts.ProductStoreNetoNone | AnalisisPredictivoVentas/Controllers/ChartsController.cs:458 | a product with no rows in a warehouse contributes 0 |
| Charts.TopProductsMulti | AnalisisPredictivoVentas/Controllers/ChartsController.cs:389-462 | BadRequest with "Se requieren 2 o más almacenes." iff the request has fewer than 2 ids; with fewer than 2 valid warehouses or no top products the chart is empty; otherwise one category caption per top product and one series per valid warehouse |
| Email.Normalize | AnalisisPredictivoVentas/Utils/EmailNormalizer.cs:5-6 | a normalised address has no white space at either end and no upper-case letter (the login's private NormalizeEmail, AccountController.cs:22-23, is this same function) |
| Email.NormalizeKeepsNormal | AnalisisPredictivoVentas/Utils/EmailNormalizer.cs:6 | an address with no white space at either end and no upper-case letter normalises to itself |
| Email.NormalizeNull | AnalisisPredictivoVentas/Utils/EmailNormalizer.cs:5-6 | a null address normalises to "" |
| Email.NormalizeIdempotent | AnalisisPredictivoVentas/Utils/EmailNormalizer.cs:6 | normalising twice is normalising once |
| Email.NormalizeIgnoresCaseAndPadding | AnalisisPredictivoVentas/Utils/EmailNormalizer.cs:6 | addresses that differ only in letter case and surrounding white space normalise equally |
| Text.Trim | AnalisisPredictivoVentas/Utils/EmailNormalizer.cs:6 | String.Trim and JavaScript's trim leave no white space at either end (by each runtime's own white-space set) |
| Text.TrimIdempotent | AnalisisPredictivoVentas/Utils/EmailNormalizer.cs:6 | trimming twice is trimming once |
| Text.TrimIgnoresPadding | AnalisisPredictivoVentas/Utils/EmailNormalizer.cs:6 | white space added around a text does not change its trim |
| Text.TrimEmptyIffBlank | AnalisisPredictivoVentas/Controllers/ChartsController.cs:488-489 | a text trims to "" iff it is all white space |
| Text.ParseIntToString | AnalisisPredictivoVentas/wwwroot/js/chat-bot.js:4 | parseInt reads back the decimal text of any integer, whatever non-digit text follows |
| Text.SplitJoin | AnalisisPredictivoVentas/wwwroot/js/chat-bot.js:10 | splitting on /[,\s;]+/ undoes joining with "," for non-empty, separator-free pieces |
| ImportDtos.LineNetStable | AnalisisPredictivoVentas/Import/ImportService.cs:140-142 | the line net is the subtotal when positive, otherwise price × quantity − discount; netting an already netted line changes nothing, so the CSV reader's net survives the importer's |
| ImportCsv.NormalizeHeader | AnalisisPredictivoVentas/Import/ImportService.cs:339-345 | the normalised header is never longer than the header (null counts as "") |
| ImportCsv.NormalizeClean | AnalisisPredictivoVentas/Import/ImportService.cs:343-344 | the normalised header has no white space, punctuation, NBSP or lower-case letter |
| ImportCsv.NormalizeConcat | AnalisisPredictivoVentas/Import/ImportService.cs:343 | normalising works character by character: the header of a concatenation is the concatenation of the headers |
| ImportCsv.NormalizeRemoved | AnalisisPredictivoVentas/Import/ImportService.cs:343 | a header made only of white space and punctuation normalises to "" |
| ImportCsv.NormalizeIdempotent | AnalisisPredictivoVentas/Import/ImportService.cs:339-345 | normalising a normalised header changes nothing |
| ImportCsv.NormalizeIgnoresCase | AnalisisPredictivoVentas/Import/ImportService.cs:344 | headers equal ignoring case normalise equally |
| ImportCsv.InvoiceHeader | AnalisisPredictivoVentas/Import/ImportService.cs:631 | "NO.FACTURA VENTA" normalises to "NOFACTURAVENTA" |
| ImportCsv.PriceHeader | AnalisisPredictivoVentas/Import/ImportService.cs:639 | "PRECIO.VENTA" normalises to "PRECIOVENTA" |
| ImportCsv.KindHeader | AnalisisPredictivoVentas/Import/ImportService.cs:646 | "TIPO / SUBTIPO" normalises to "TIPOSUBTIPO" |
| ImportCsv.FieldIndex | AnalisisPredictivoVentas/Import/ImportService.cs:626-651 | a column is found at the first header that normalises like the field's name, and is missing only when no header does |
| ImportCsv.PercentHeaderCollides | AnalisisPredictivoVentas/Import/ImportService.cs:641 | as written, "%DESCUENTO" normalises to "DESCUENTO": in a file with headers %DESCUENTO and DESCUENTO the DESCUENTO field reads the %DESCUENTO column and PORDESCUENTO is never found |
| ImportCsv.NormalizeHeaderIntended | AnalisisPredictivoVentas/Import/ImportService.cs:641 | the corrected normaliser, reading '%' as "POR", is no longer than the spelled-out header |
| ImportCsv.IntendedPercentHeader | AnalisisPredictivoVentas/Import/ImportService.cs:641 | with the correction "%DESCUENTO" normalises to "PORDESCUENTO" |
| ImportCsv.IntendedAgrees | AnalisisPredictivoVentas/Import/ImportService.cs:339-345 | the correction agrees with the code on every header without '%' |
| ImportCsv.IntendedPercentColumnFound | AnalisisPredictivoVentas/Import/ImportService.cs:640-641 | with the correction the "POR" field finds the '%' column |
| ImportCsv.IntendedPlainColumnFound | AnalisisPredictivoVentas/Import/ImportService.cs:640 | with the correction the plain field finds its own column, not the '%' one |
| ImportCsv.GroupKeysSpec | AnalisisPredictivoVentas/Import/ImportService.cs:362 | the group keys are distinct and are exactly the keys of the rows |
| ImportCsv.GroupOfSpec | AnalisisPredictivoVentas/Import/ImportService.cs:362 | a key's group holds exactly the rows with that key |
| ImportCsv.GroupsPartition | AnalisisPredictivoVentas/Import/ImportService.cs:362-364 | the groups, taken together, are a permutation of the rows |
| ImportCsv.LineOf | AnalisisPredictivoVentas/Import/ImportService.cs:382-403 | a line carries the row's product code and price, and its subtotal is the row's net with the price × quantity − discount fallback |
| ImportCsv.LinesFromRows | AnalisisPredictivoVentas/Import/ImportService.cs:378-404 | a group's lines are exactly the lines of its rows with a non-blank product |
| ImportCsv.PaymentsOfKeys | AnalisisPredictivoVentas/Import/ImportService.cs:406-423 | one payment per (code, description) key of the group with either part non-blank; its method is the code when non-blank, else the description; its amount is the raw NETO of all the key's rows, rows without a product included |
| ImportCsv.PaymentKeysDistinct | AnalisisPredictivoVentas/Import/ImportService.cs:406 | payment keys are distinct and every row has its key among them |
| ImportCsv.PaymentMethodsNamed | AnalisisPredictivoVentas/Import/ImportService.cs:413-420 | no payment has a blank method |
| ImportCsv.SaleOf | AnalisisPredictivoVentas/Import/ImportService.cs:366-376 | a sale's warehouse code and name are the first row's branch; Numero is null iff the first row's invoice is blank, otherwise that invoice |
| ImportCsv.Groups | AnalisisPredictivoVentas/Import/ImportService.cs:362 | one non-empty group per distinct (invoice, branch) key |
| ImportCsv.CsvSales | AnalisisPredictivoVentas/Import/ImportService.cs:357-358 | a file with no rows gives null |
| ImportCsv.SalesFromGroups | AnalisisPredictivoVentas/Import/ImportService.cs:364-425 | every sale comes from a group whose branch is not blank |
| ImportCsv.SalesHaveBranch | AnalisisPredictivoVentas/Import/ImportService.cs:367 | every sale has a non-blank warehouse code |
| ImportCsv.SaleOfEveryBranch | AnalisisPredictivoVentas/Import/ImportService.cs:364-367 | a group's sale is in the result iff its branch is not blank |
| ImportCsv.ReadLines | AnalisisPredictivoVentas/Import/ImportService.cs:378-404 | the loop over a group's rows appends exactly the group's lines |
| ImportCsv.ReadPayments | AnalisisPredictivoVentas/Import/ImportService.cs:416-423 | the loop over the payment groups appends exactly the group's payments |
| ImportCsv.ParseCsv | AnalisisPredictivoVentas/Import/ImportService.cs:357-428 | the imperative reader returns exactly the functional reading of the rows |
| Importer.First | AnalisisPredictivoVentas/Import/ImportService.cs:459 | FirstOrDefault: the index of the first row satisfying the condition, or none when no row does |
| Importer.UpsertAlmacen | AnalisisPredictivoVentas/Import/ImportService.cs:522-541 | the warehouse code is present afterwards, no other code is added, and other warehouses are untouched |
| Importer.UpsertAlmacenName | AnalisisPredictivoVentas/Import/ImportService.cs:524-539 | a new warehouse takes the record's name; an existing one takes a non-blank name and is otherwise left unchanged |
| Importer.UpsertAlmacenIdempotent | AnalisisPredictivoVentas/Import/ImportService.cs:522-541 | upserting the same warehouse twice is upserting it once |
| Importer.FindCliente | AnalisisPredictivoVentas/Import/ImportService.cs:489-493 | a client is found by a non-blank identification, otherwise (or failing that) as the first client with the record's name; none is found only when no client has the name nor, when given, the identification |
| Importer.UpsertClienteRows | AnalisisPredictivoVentas/Import/ImportService.cs:487-520 | a client not found is appended with the record's fields at the next index; a found client keeps its index and takes the merge, and every other client is untouched |
| Importer.MergeCliente | AnalisisPredictivoVentas/Import/ImportService.cs:510-516 | an update never changes a client's identification |
| Importer.MergeClienteIdempotent | AnalisisPredictivoVentas/Import/ImportService.cs:510-516 | merging the same record twice is merging it once |
| Importer.UpsertClienteIdempotent | AnalisisPredictivoVentas/Import/ImportService.cs:487-520 | importing the same client record again leaves the table and the index as they were |
| Importer.ResolveEmpleado | AnalisisPredictivoVentas/Import/ImportService.cs:72-95 | no record gives no seller; a given user id that some employee has finds the first such employee; otherwise a blank name gives no seller, a name found in the sale's warehouse finds the first such employee, and a missing one is appended with the record's user id or the fresh id; only the append changes the table |
| Importer.ResolveEmpleadoAppends | AnalisisPredictivoVentas/Import/ImportService.cs:83-93 | the employee table is unchanged, or gains exactly one row: the record's name in the sale's warehouse with its user id or, when it has none, the fresh id |
| Importer.ResolveEmpleadoIdempotent | AnalisisPredictivoVentas/Import/ImportService.cs:72-95 | resolving the same seller again, whatever fresh id is offered, changes nothing and finds the same row |
| Importer.MethodKey | AnalisisPredictivoVentas/Import/ImportService.cs:545 | the stored method name is never blank, and is the given name when that is not blank |
| Importer.UpsertMetodo | AnalisisPredictivoVentas/Import/ImportService.cs:543-559 | the method's key is present afterwards, no other key is added, and existing methods are never modified |
| Importer.UpsertMetodoNew | AnalisisPredictivoVentas/Import/ImportService.cs:549-553 | a new method allows change iff its name is "Efectivo" ignoring case |
| Importer.BlankMethodIsCash | AnalisisPredictivoVentas/Import/ImportService.cs:545-553 | a blank method name is stored as "Efectivo", which allows change |
| Importer.UpsertMetodos | AnalisisPredictivoVentas/Import/ImportService.cs:164-168 | upserting a sale's payment methods keeps every existing method as it was |
| Importer.UpsertMetodosHas | AnalisisPredictivoVentas/Import/ImportService.cs:164-168 | every payment's method is present afterwards |
| Importer.UpsertMetodosCount | AnalisisPredictivoVentas/Import/ImportService.cs:556 | MetodosPagoUpsert grows by exactly the number of methods inserted, the number of new keys |
| Importer.UpsertMetodosKnown | AnalisisPredictivoVentas/Import/ImportService.cs:547 | payments whose methods all exist change nothing and insert nothing |
| Importer.UpsertMetodosIdempotent | AnalisisPredictivoVentas/Import/ImportService.cs:543-559 | upserting the same payments twice is upserting them once, and the second time inserts nothing |
| Importer.UpsertProducto | AnalisisPredictivoVentas/Import/ImportService.cs:457-485 | the product code is present afterwards, no other code is added, and other products are untouched |
| Importer.UpsertProductoRule | AnalisisPredictivoVentas/Import/ImportService.cs:459-483 | a new product takes the record's name and category and PrecioVenta ?? 0; an existing product takes a non-blank name, a non-null category and a present price, and keeps each field otherwise |
| Importer.UpsertProductos | AnalisisPredictivoVentas/Import/ImportService.cs:136-138 | the products of a sale's lines never remove a product |
| Importer.UpsertProductosHas | AnalisisPredictivoVentas/Import/ImportService.cs:136-138 | every line's product is present afterwards |
| Importer.UpsertProductosCount | AnalisisPredictivoVentas/Import/ImportService.cs:471 | ProductosUpsert grows by exactly the number of products inserted |
| Importer.UpsertProductosKnown | AnalisisPredictivoVentas/Import/ImportService.cs:473-483 | lines whose products all exist insert nothing, so updates never increment the counter |
| Importer.UpsertProductosIdempotent | AnalisisPredictivoVentas/Import/ImportService.cs:457-485 | upserting the same lines twice is upserting them once, and the second time inserts nothing |
| Importer.KeyWise | AnalisisPredictivoVentas/Import/ImportService.cs:136-138 | each product code's final row depends only on its earlier row and on the lines that carry that code, in order |
| Importer.CabMatch | AnalisisPredictivoVentas/Import/ImportService.cs:97-105 | a header is matched only for a non-blank Numero, and the match has the same Numero and warehouse |
| Importer.LineRows | AnalisisPredictivoVentas/Import/ImportService.cs:136-161 | one detail row per line, in order |
| Importer.PagoRows | AnalisisPredictivoVentas/Import/ImportService.cs:164-168 | one payment row per payment, in order |
| Importer.SaleWithoutAlmacen | AnalisisPredictivoVentas/Import/ImportService.cs:58-63 | a sale without a warehouse code adds its error and changes no table, counter or touched set |
| Importer.MissingAlmacenText | AnalisisPredictivoVentas/Import/ImportService.cs:61 | the error reads "Venta <Numero> sin almacén." or "Venta (sin número) sin almacén." |
| Importer.SaleStepPhases | AnalisisPredictivoVentas/Import/ImportService.cs:55-175 | a sale with a warehouse writes its warehouse, client, seller, products, payment methods and header in that order |
| Importer.SaleStepHeader | AnalisisPredictivoVentas/Import/ImportService.cs:97-174 | the sale's header holds exactly its detail and payment rows, Total is the sum of the line nets, Numero, warehouse and observation are the sale's, the date is the sale's (a missing date takes the clock for a new header and keeps the old one on a replaced header), the header is touched and no other header changes; a new header increments VentasInsertadas and a replaced one does not; a sale without Numero always adds a header |
| Importer.SaleStepTracks | AnalisisPredictivoVentas/Import/ImportService.cs:55-175 | one sale keeps the tracking invariant: tables never shrink, each insert counter equals its table's growth, and every touched header exists |
| Importer.SalesStepTracks | AnalisisPredictivoVentas/Import/ImportService.cs:55-175 | the whole loop keeps the tracking invariant |
| Importer.SalesStepErrors | AnalisisPredictivoVentas/Import/ImportService.cs:55-63 | the loop's errors are exactly one per sale without a warehouse, in order |
| Importer.SaleStepIdempotent | AnalisisPredictivoVentas/Import/ImportService.cs:97-132 | importing a sale with a Numero and a warehouse a second time, at any clock and fresh id, changes nothing |
| Importer.FormatOf | AnalisisPredictivoVentas/Import/ImportService.cs:31-41 | .json, .xml and .csv are recognised ignoring case, in that order of precedence; any other name has no format |
| Importer.ImportarUnsupported | AnalisisPredictivoVentas/Import/ImportService.cs:37-41 | a file of another kind gives exactly one error ("Formato no soportado") and changes nothing |
| Importer.ImportarNoSales | AnalisisPredictivoVentas/Import/ImportService.cs:43-47 | a file with no sales gives exactly one error and changes nothing |
| Importer.ImportarTracks | AnalisisPredictivoVentas/Import/ImportService.cs:22-175 | a whole import keeps the tracking invariant against the tables it started from |
| Importer.ImportarName | AnalisisPredictivoVentas/Import/ImportService.cs:24 | the result carries the file's name |
| Importer.ImportarErrors | AnalisisPredictivoVentas/Import/ImportService.cs:43-63 | a file with sales reports exactly one error per sale without a warehouse |
| Importer.ImportarCsvNoSkips | AnalisisPredictivoVentas/Import/ImportService.cs:364-367 | a CSV import reports no missing-warehouse error: only the no-sales error, when the file has no rows or no sale with a branch |
| Import.ImportResult.constructor | AnalisisPredictivoVentas/Import/ImportService.cs:24 | a new result carries the file's name and zero counters, and no errors |
| Import.ImportService.constructor | AnalisisPredictivoVentas/Import/ImportService.cs:20 | the service starts on the given tables |
| Import.ImportService.UpsertAlmacenAsync | AnalisisPredictivoVentas/Import/ImportService.cs:522-541 | updates the warehouse table and AlmacenesUpsert in place exactly as the warehouse upsert function does |
| Import.ImportService.UpsertClienteAsync | AnalisisPredictivoVentas/Import/ImportService.cs:487-520 | updates the client table and ClientesUpsert in place exactly as the client upsert function does, and returns the client's row |
| Import.ImportService.ResolveEmpleadoAsync | AnalisisPredictivoVentas/Import/ImportService.cs:72-95 | updates the employee table in place as the seller resolution does, and returns its row |
| Import.ImportService.UpsertProductoAsync | AnalisisPredictivoVentas/Import/ImportService.cs:457-485 | updates the product table and ProductosUpsert in place exactly as the product upsert function does |
| Import.ImportService.UpsertMetodoPagoAsync | AnalisisPredictivoVentas/Import/ImportService.cs:543-559 | updates the method table and MetodosPagoUpsert in place as the method upsert does, and returns the stored name ("Efectivo" for a blank one) |
| Import.ImportService.ReadDetalles | AnalisisPredictivoVentas/Import/ImportService.cs:134-161 | the loop over the lines returns their detail rows and a running total equal to the sum of line nets, upserting each line's product |
| Import.ImportService.ReadPagos | AnalisisPredictivoVentas/Import/ImportService.cs:163-168 | the loop over the payments returns their rows, upserting each payment's method |
| Import.ImportService.UpsertParties | AnalisisPredictivoVentas/Import/ImportService.cs:57-95 | writes the warehouse, client and seller of a sale in the application's order and returns the client's and seller's rows |
| Import.ImportService.WriteCab | AnalisisPredictivoVentas/Import/ImportService.cs:97-132 | writes the sale's header as the header phase does: a new header, or the replacement of a matching one |
| Import.ImportService.AddCab | AnalisisPredictivoVentas/Import/ImportService.cs:107-121 | adds a new header with the lines, payments and total, counts it in VentasInsertadas and marks it touched |
| Import.ImportService.ReplaceCab | AnalisisPredictivoVentas/Import/ImportService.cs:122-132 | replaces a matching header's lines, payments, total and fields in place, marks it touched, and leaves the counters alone |
| Import.ImportService.ImportSale | AnalisisPredictivoVentas/Import/ImportService.cs:55-175 | one pass of the sale loop changes tables, counters and touched headers exactly as the sale step function does |
| Import.ImportService.ImportarAsync | AnalisisPredictivoVentas/Import/ImportService.cs:22-197 | the whole import, run on the service's tables, returns a fresh result and leaves tables, result and touched headers exactly as the functional import does |
| ChatBot.ToIntOfString | AnalisisPredictivoVentas/wwwroot/js/chat-bot.js:3-6 | toInt reads back the decimal text of any integer |
| ChatBot.ToIntList | AnalisisPredictivoVentas/wwwroot/js/chat-bot.js:7-13 | toIntList is null exactly for null input |
| ChatBot.ToIntListStep | AnalisisPredictivoVentas/wwwroot/js/chat-bot.js:9-12 | the text is read one piece at a time: the separator-free text before a run of ',', ';' or white space gives its integer or nothing, then the rest after the whole run is read, so order is kept |
| ChatBot.ToIntListSingle | AnalisisPredictivoVentas/wwwroot/js/chat-bot.js:9-12 | text without a separator is one piece: its integer, or the empty list |
| ChatBot.IntsMembers | AnalisisPredictivoVentas/wwwroot/js/chat-bot.js:11-12 | an integer is in the list exactly when some piece reads as it; pieces that are not numbers are dropped |
| ChatBot.WordIsNotInt | AnalisisPredictivoVentas/wwwroot/js/chat-bot.js:3-6 | a piece starting with neither a digit nor a sign reads as null |
| ChatBot.ToIntListSkipsWord | AnalisisPredictivoVentas/wwwroot/js/chat-bot.js:7-13 | a number, a separator run, a word, another run and a number read as the two numbers ("1, x;2" gives [1, 2]) |
| ChatBot.IdsRoundTrip | AnalisisPredictivoVentas/wwwroot/js/chat-bot.js:7-13 | toIntList of a comma-joined list of integers gives back that list |
| ChatBot.Coerce | AnalisisPredictivoVentas/wwwroot/js/chat-bot.js:224-235 | year, limit and month store toInt's integer, and are rejected exactly when it is null; almacenIds is rejected exactly when the list is empty, and otherwise stored comma-joined; the other fields store the trimmed text |
| ChatBot.CoerceIdsRoundTrip | AnalisisPredictivoVentas/wwwroot/js/chat-bot.js:229-231 | the stored warehouse list parses back to the list that was typed in |
| ChatBot.RequiredPresent | AnalisisPredictivoVentas/wwwroot/js/chat-bot.js:240-244 | once all three required answers are stored, fetchTop's required-data check passes |
| ChatBot.Wizard.constructor | AnalisisPredictivoVentas/wwwroot/js/chat-bot.js:82 | the wizard starts idle with both indices 0, no params and nothing said |
| ChatBot.Wizard.StartTop | AnalisisPredictivoVentas/wwwroot/js/chat-bot.js:157-161 | starts the "top" mode with both indices 0 and empty params, and asks for the year |
| ChatBot.Wizard.AskNext | AnalisisPredictivoVentas/wwwroot/js/chat-bot.js:163-187 | outside "top" mode does nothing; asks the next required field, then the next optional one, in the orders year, limit, almacenIds and categoria, metodoPago, month; once both indices reach 3 it fetches, which with the required data leaves the state as it is with the query sent |
| ChatBot.Wizard.FetchTop | AnalisisPredictivoVentas/wwwroot/js/chat-bot.js:237-250 | without the required data reports it and restarts; with it sends the query with the stored params and leaves the state unchanged while the request is awaited |
| ChatBot.Wizard.Settle | AnalisisPredictivoVentas/wwwroot/js/chat-bot.js:250-260 | when the request ends it shows the results or the error and, in finally, resets the wizard to idle with empty params from whatever state it is in |
| ChatBot.ChipDuringFetch | AnalisisPredictivoVentas/wwwroot/js/chat-bot.js:256-259 | a chip restart while the query is pending is wiped when the reply arrives: the wizard ends reset |
| ChatBot.Wizard.Omit | AnalisisPredictivoVentas/wwwroot/js/chat-bot.js:137-143 | only in "top" mode while an optional field is asked and optIdx < 3: advances optIdx by 1 and asks the next optional field, or sends the query after the last (the state then waits with both indices at 3); it never touches reqIdx or params, and otherwise, the pending query included, does nothing |
| ChatBot.Wizard.AnswerRequired | AnalisisPredictivoVentas/wwwroot/js/chat-bot.js:205-212 | an invalid answer leaves the indices and params as they were and says so; a valid one stores the field, advances reqIdx by one and asks the next question |
| ChatBot.Wizard.AnswerOptional | AnalisisPredictivoVentas/wwwroot/js/chat-bot.js:214-221 | an invalid answer leaves the indices and params as they were and says so; a valid one stores the field and advances optIdx by one, or after the last optional field sends the query with the new params and waits |
| ChatBot.Wizard.HandleSend | AnalisisPredictivoVentas/wwwroot/js/chat-bot.js:189-222 | blank input is ignored; in idle mode text containing "top productos" (ignoring case) starts the wizard and any other text gets the hint; in "top" mode it answers the current required or optional question; while the query is pending the text is only echoed and nothing else changes. The wizard invariant always holds: indices within 0..3, idle means reset, an optional field is asked exactly when the required ones are answered, and every stored answer fits its field and belongs to a field already asked |
| ChatBot.Wizard.StartOrHint | AnalisisPredictivoVentas/wwwroot/js/chat-bot.js:195-202 | in idle mode text containing "top productos" (ignoring case) starts the wizard, and any other text gets the start hint |
| ChatBot.Wizard.Answer | AnalisisPredictivoVentas/wwwroot/js/chat-bot.js:204-221 | in "top" mode the input answers the required question while reqIdx < 3, and the optional one while optIdx < 3; with both at 3 (query pending) both branches fall through and only the echo is added |
| SalesTop.BuildQuery | AnalisisPredictivoVentas/wwwroot/js/sales-top.js:52-67 | the loop over the parameters returns the base URL with the query of their pairs |
| SalesTop.ArrayPairs | AnalisisPredictivoVentas/wwwroot/js/sales-top.js:56-60 | the loop over an array emits exactly its values' pairs, in order |
| SalesTop.ScalarPairs | AnalisisPredictivoVentas/wwwroot/js/sales-top.js:61-64 | a scalar emits exactly its own pair, when its value is not blank |
| SalesTop.PairsAppend | AnalisisPredictivoVentas/wwwroot/js/sales-top.js:54 | the pairs of two parameter lists are those of the first followed by those of the second |
| SalesTop.MissingSkipped | AnalisisPredictivoVentas/wwwroot/js/sales-top.js:55 | a null or undefined parameter emits nothing |
| SalesTop.EmitMembership | AnalisisPredictivoVentas/wwwroot/js/sales-top.js:62-63 | a scalar emits a pair iff its trimmed text is not empty, and that pair carries the trimmed text |
| SalesTop.ItemPairsMembership | AnalisisPredictivoVentas/wwwroot/js/sales-top.js:57-60 | an array emits exactly one pair per element whose trimmed text is not empty |
| SalesTop.PairsMembership | AnalisisPredictivoVentas/wwwroot/js/sales-top.js:54-65 | a pair is emitted iff some parameter has a value whose trimmed text is non-empty, with that key and trimmed text |
| SalesTop.PairShape | AnalisisPredictivoVentas/wwwroot/js/sales-top.js:59 | with an escaping encoder, a pair has no '&' and splits at '=' into the encoded key and value |
| SalesTop.PairsFreeOfAmpersand | AnalisisPredictivoVentas/wwwroot/js/sales-top.js:59-63 | with an escaping encoder, no emitted pair contains '&' |
| SalesTop.QueryRoundTrip | AnalisisPredictivoVentas/wwwroot/js/sales-top.js:66 | a URL without '?' and pairs without '&' read back as that URL and those pairs; the URL is unchanged iff there are no pairs |
| SalesTop.BuildQueryReadsBack | AnalisisPredictivoVentas/wwwroot/js/sales-top.js:52-66 | the built query reads back as the base URL and the emitted pairs, in order |
| SalesTop.TopN | AnalisisPredictivoVentas/wwwroot/js/sales-top.js:47-50 | getTopN is at least 1; it is the parsed value whenever parseInt gives one ≥ 1 (so "07" and " 5" read as 7 and 5), and 10 when parseInt gives null or a value below 1 |
| SalesTop.TopNReads | AnalisisPredictivoVentas/wwwroot/js/sales-top.js:48-49 | the text of any n ≥ 1 reads as n |
| SalesTop.TopNBelowOne | AnalisisPredictivoVentas/wwwroot/js/sales-top.js:49 | a value below 1 falls back to 10 |
| SalesTop.TopNMissing | AnalisisPredictivoVentas/wwwroot/js/sales-top.js:48 | a missing value falls back to 10 |
| SalesTop.Dedup | AnalisisPredictivoVentas/wwwroot/js/sales-top.js:154 | the Set built from the ids holds each id once and exactly the ids given |
| SalesTop.Remove | AnalisisPredictivoVentas/wwwroot/js/sales-top.js:164 | deleting an id removes exactly that id and keeps the others distinct |
| SalesTop.Selected | AnalisisPredictivoVentas/wwwroot/js/sales-top.js:176 | the selected warehouses are exactly those whose id is in the selection |
| SalesTop.NamesLabelOf | AnalisisPredictivoVentas/wwwroot/js/sales-top.js:177 | one name is shown as is, two joined with ", ", more as the first two and " +k" with k = count − 2 |
| SalesTop.SelectedCount | AnalisisPredictivoVentas/wwwroot/js/sales-top.js:176 | with unique warehouse ids, the selection shows one name per selected id |
| SalesTop.SummaryOfPartial | AnalisisPredictivoVentas/wwwroot/js/sales-top.js:173-178 | a partial selection shows its first one or two names, plus " +k" for the k further ones |
| SalesTop.SummaryOfExtremes | AnalisisPredictivoVentas/wwwroot/js/sales-top.js:174-175 | an empty selection shows "Ninguno" and the full one "Todos" |
| SalesTop.Selection.constructor | AnalisisPredictivoVentas/wwwroot/js/sales-top.js:142-158 | every warehouse starts selected, "all" is checked, and the summary matches the selection |
| SalesTop.Selection.Toggle | AnalisisPredictivoVentas/wwwroot/js/sales-top.js:160-169 | checking adds exactly that id, unchecking removes exactly that id, other ids are unchanged, "all" is checked iff every warehouse is selected, and the summary is kept up to date |
| SalesTop.Selection.SetAll | AnalisisPredictivoVentas/wwwroot/js/sales-top.js:181-191 | "all" selects every warehouse or none, and the summary is kept up to date |
| SalesTop.Selection.Reset | AnalisisPredictivoVentas/wwwroot/js/sales-top.js:243-248 | resetting the filters selects every warehouse again and checks "all" |
| SalesTop.TopParamsIds | AnalisisPredictivoVentas/wwwroot/js/sales-top.js:106-116 | the top query sends almacenIds iff the selection is non-empty and not the full list |
| SalesTop.MultiParamsIds | AnalisisPredictivoVentas/wwwroot/js/sales-top.js:125-132 | the multi-warehouse query always sends the selected ids as an array |
| SalesTop.IdsPairs | AnalisisPredictivoVentas/wwwroot/js/sales-top.js:115 | the ids are sent as one almacenIds pair per selected id, in order |

## Left out

- Database access is not modelled: Entity Framework queries, `SaveChangesAsync`, transactions with their rollback, exceptions, and the `usp_MaterializarHechosVentas` procedure. Tables are maps or sequences, and a query's result is an input sequence. The set of touched headers is returned for materialisation.
- SQL `GroupBy`, `OrderByDescending(...).Take(n)` and aggregate sums run in the database and are not modelled. The top ids and the grouped rows they produce are inputs. `FirstOrDefault` without an `OrderBy` is read as the first row in insertion order. String equality ignores any database collation.
- Generated ids are not modelled. They are row indices for clients, employees and headers, and natural keys for products, warehouses and payment methods.
- The importer writes a new header before its lines. The model writes the lines first; the final tables are the same, because the product and method upserts never read headers.
- `MetodoPago.Activo` and the entity fields the code never writes are left out.
- JSON, XML and CSV tokenising (System.Text.Json, XDocument, CsvHelper) is not modelled. The CSV reader starts from the decoded rows, and the JSON and XML readers are the `parse` parameter of the import.
- `ParseFechaFlexible` depends on culture date formats, so it is the `parseDate` parameter.
- The clock (`DateTime.Today`, `DateTime.UtcNow`, `Date.now()`) is the `now` or `today` parameter. `Guid.NewGuid()` is the `guid` parameter.
- `Math.Sqrt` and the `double` casts are not modelled. The square root is a parameter that meets `sqrt(x) ≥ 0` and `sqrt(x)² = x` for `x ≥ 0`, and the arithmetic is exact on reals.
- The week bucket (`EF.Functions.DateDiffWeek`) is an abstract function of the day, with neither a Sunday-boundary nor a floor(days/7) formula built in.
- `LoteMinimo` and `MultiploCompra` are never read by the estimator, so no lot rounding is modelled.
- The service level is read as a fraction, as the estimator reads it.
- Culture month names, Highcharts options, DOM rendering and event wiring are not modelled.
- `encodeURIComponent` is an abstract encoder. Reading a query back assumes only that it escapes '&' and '='; the base URL must not contain '?'.
- `mediaMovil3` mixes floating point with `toFixed`, so it is left out. `sumSeriesByMonth` is display plumbing and is left out too.
- The `buildQuery` copies in the other chart scripts differ slightly in how they filter arrays and are not modelled apart from the one in sales-top.js.
- Authentication, authorisation, e-mail assembly and SMTP sending are not part of this model.
- Charts.CompareSellers: the metric is lower-cased with the Latin-1 `Lower`; the culture-dependent `ToLower` of the application (for example under a Turkish culture, or with 'İ') is not modelled.
- Charts.NormalizeGender: only case pairs lying wholly inside Basic Latin and Latin-1 are mapped; 'ÿ' (U+00FF) and 'µ' (U+00B5), whose invariant upper cases lie outside Latin-1, stay as they are, as do all other Unicode case pairs (none of which changes the four labels compared here).
- Email.Normalize: `ToLowerInvariant` is modelled for Basic Latin and Latin-1 only.
- ChatBot.Wizard.StartOrHint: JavaScript's `toLowerCase` on the typed text is modelled by the Latin-1 `Text.Lower`; no character outside Latin-1 lowers into a letter of "top productos", so the start command is recognised alike.
- ImportCsv.NormalizeHeader: `ToUpperInvariant` is modelled only for case pairs lying wholly inside Basic Latin and Latin-1, so 'ÿ' (U+00FF) and 'µ' (U+00B5), which .NET maps to U+0178 and U+039C, stay as they are (and `NormalizeClean`'s "no lower-case letter" means the letters `Text.IsLower` names); the punctuation class `\p{P}` is modelled by its Latin-1 members.
- Text.ParseInt: integers are unbounded, so JavaScript's loss of precision beyond 2^53 is not modelled. `Number.isFinite` can then never fail on a parsed integer.
- ChatBot.ToIntList: uses the same unbounded integers as `Text.ParseInt`.
- SalesTop.TopN: uses the same unbounded integers as `Text.ParseInt`.
- Replenishment.Suggest: decimal arithmetic is exact on reals, and its 28-digit precision is not modelled.
- Importer.ResolveEmpleado: the seller is found with the first-row reading of `FirstOrDefault` stated above.
- Import.ImportService.ResolveEmpleadoAsync rewrites the employee table but not the counters, as in the application, so its contract names only the tables.

## Findings

| source | as written | input that shows it | evidently intended | confidence | as-written member | corrected member |
|---|---|---|---|---|---|---|
| AnalisisPredictivoVentas/Import/ImportService.cs:641 | the header normaliser removes every punctuation character, '%' included, so "%DESCUENTO" normalises to "DESCUENTO"; the PORDESCUENTO field is never found, and a %DESCUENTO column placed first is read as DESCUENTO | headers ["%DESCUENTO", "DESCUENTO"] | '%' is read as "POR", so "%DESCUENTO" becomes "PORDESCUENTO" as the mapping's comment says | not executed | ImportCsv.PercentHeaderCollides | ImportCsv.NormalizeHeaderIntended, ImportCsv.IntendedPercentColumnFound |
