# Budgeting app transaction pipeline, in Dafny

This project models the transaction pipeline of a small budgeting application that reads the CSV
exports of two banks, Wise and BN Bank. The pipeline starts from rows that have already been split
into fields. It validates them and turns each row into a clean transaction. From those it derives:

- the money spent (direction `OUT`) and received (direction `IN`);
- one summary per category and one per counterparty, over spending only;
- copies of the summaries sorted by total or by count.

The model also covers the older Wise pipeline (`csvUtils.ts`), which has its own field transform and
its own copies of the aggregates. It covers the manifest of data files with its two lookups, and the
BN Bank loader: a character filter on the downloaded text and a cache of parsed files keyed by path.

Modules, one per file:

- `Results`: `Option` and `Result`.
- `Common`: `Direction`, the two summary records, a tokenised row (`map<string, string>`), and a
  number-or-string `Cell`.
- `JsText`: the ECMAScript pieces the code relies on:
  - the `\s` character class;
  - deleting the characters a regular expression matches (`Keep`);
  - `replace` with a one-character pattern, which changes only the first occurrence;
  - `Number` and `parseFloat` on decimal literals.
- `JsLiterals`: the values `Number` and `parseFloat` give to whole literals. The digits `d1 '.' d2`
  are worth the integer `d1d2` divided by a power of ten, one factor per digit of `d2`.
- `JsNumberText`: which text `Number` and `parseFloat` accept. `Number` reads a number from blank text
  and from text that, once trimmed, is exactly one literal; `parseFloat` reads one only when a literal
  stands at the front. Everything else is `NaN`.
- `Sorting`: `Array.prototype.sort` with a comparator. It is stable (section 23.1.3.30 of ECMA-262),
  so the model is an insertion sort proved sorted, a permutation, and order-preserving on ties.
- `Aggregation`: the grouping and totals that all three pipelines share. A JavaScript `Map` keeps
  the order in which keys were first set; it is modelled as a sequence of groups updated in place.
  `GroupsMatchReference` proves that the `Map` the code builds holds exactly the groups of an
  independent reference definition, in first-occurrence order.
- `BnBankCsv`, `WiseCsv`, `LegacyCsv`: the three pipelines. Each projects its clean transactions
  onto `Aggregation.Entry`.
- `DataManifest`: `dataManifest`, `getAvailableMonths` and `getDataFile`.
- `BnBankLoader`: the character filter, `availableBnDataFiles` and `loadBnBankDataFile` with an
  explicit cache.
- `BnBankExamples`, `WiseExamples`, `NumberExamples`: worked examples, proved.

Amounts are `real`. `Number` and `parseFloat` are modelled on the grammar
`[+-]? (digits ('.' digits?)? | '.' digits)`; `None` stands for `NaN`.

The BN Bank cleaner reads the columns `Utfrt dato`, `Belp inn` and `Belp ut`. The declared record
type spells them `Utført dato` and `Beløp inn`. The loader's filter deletes a U+FFFD replacement
character but keeps `ø`. So the lookups match a file whose `ø` failed to decode
(`BnBankExamples.StrippedHeaderMatches`). A file whose `ø` decoded correctly keeps `Beløp inn`, the
lookups find nothing, and every row of it is cleaned as spending 0
(`BnBankExamples.DecodedHeaderMissesAmount`).

The filter allows the three letters æ, ø and å in both cases, six characters in all. Summaries come
out in the order in which their keys first occur among the OUT transactions, as a `Map` iterates.

## Model

| member | source | states |
|---|---|---|
| `BnBankCsv.ParseBnBankCsv` | src/utils/csv/bnBank.ts:22-36 | Succeeds exactly when the schema accepts every row, and then returns every validated row in order. Otherwise it fails at the first rejected row, reporting that row, and returns no partial list. The row's index in the error is the model's own addition; the thrown error carries the issue list and the row. |
| `BnBankCsv.CleanAmountText` | src/utils/csv/bnBank.ts:51-56 | The result has no white space. It is the input's non-white-space characters, with only the first comma turned into `.`. Text that has no white space and no comma is unchanged. |
| `BnBankCsv.Classify` | src/utils/csv/bnBank.ts:57-68 | A non-empty "inn" that `Number` accepts gives IN with the value `Number` reads, whatever "ut" holds. Otherwise a numeric "ut" gives OUT with its value. Otherwise the result is OUT with 0, never a failure. The direction is IN exactly when "inn" is numeric. |
| `BnBankCsv.CleanTransaction` | src/utils/csv/bnBank.ts:49-76 | Counterparty, category and date are copied verbatim from `Beskrivelse`, `Undertype` and `Utfrt dato`. A missing column reads as "". Direction and amount are classified from the cleaned "inn" and "ut" texts. |
| `BnBankCsv.CleanBnBankTransactions` | src/utils/csv/bnBank.ts:46-77 | One clean transaction per row, same length and order. Each copies its row's fields and classifies its amounts. |
| `BnBankCsv.TotalSpent` | src/utils/csv/bnBank.ts:80-86 | Equals the sum of the OUT amounts, and is 0 when every transaction is IN. |
| `BnBankCsv.TotalReceived` | src/utils/csv/bnBank.ts:88-94 | Equals the sum of the IN amounts, and is 0 when every transaction is OUT. |
| `BnBankCsv.TotalsPartition` | src/utils/csv/bnBank.ts:80-94 | Spent plus received equals the sum of all amounts. |
| `BnBankCsv.CategorySummaries` | src/utils/csv/bnBank.ts:96-119 | One row per category spent on, in first-occurrence order, with distinct keys. Each row's total is the amount spent on it and its count the number of OUT transactions in it, at least 1. The average is total / count. Totals add up to the total spent and counts to the number of OUT transactions. All-IN input gives []. |
| `BnBankCsv.TargetSummaries` | src/utils/csv/bnBank.ts:121-144 | The same, per counterparty. |
| `BnBankCsv.SortByAmount` | src/utils/csv/bnBank.ts:146-150 | A permutation of the input, non-increasing in total, with equal totals in input order. |
| `BnBankCsv.SortByCount` | src/utils/csv/bnBank.ts:152-156 | A permutation of the input, non-increasing in count, with equal counts in input order. |
| `BnBankExamples.CleanNorwegianAmount` | src/utils/csv/bnBank.ts:51-53 | "1 234,50" is cleaned to "1234.50". |
| `BnBankExamples.ReadNorwegianAmount` | src/utils/csv/bnBank.ts:59-61 | `Number("1234.50")` is 1234.5. |
| `BnBankExamples.ReceivedRowExample` | src/utils/csv/bnBank.ts:59-61 | A row with "1 234,50" in "inn" is IN 1234.5, whatever "ut" holds. |
| `BnBankExamples.EmptyAmountsExample` | src/utils/csv/bnBank.ts:65-68 | A row with neither amount is OUT 0, and its description is kept. |
| `BnBankExamples.StrippedHeaderMatches` | src/utils/csv/bnBank.ts:51 | The filter turns the header "Bel\u{FFFD}p inn" into the column name the cleaner reads. |
| `BnBankExamples.DecodedHeaderMissesAmount` | src/utils/csv/bnBank.ts:51-68 | With the header "Beløp inn", the amount is not found and the row is OUT 0. |
| `WiseCsv.ValidRows` | src/utils/csv/wise.ts:16-30 | The schema's records of the accepted rows: no more than the rows, and none when every row is rejected. |
| `WiseCsv.ValidRowsConcat` | src/utils/csv/wise.ts:16-30 | Rows are filtered one at a time: the records of `a + b` are those of `a` followed by those of `b`. |
| `WiseCsv.AllValidRowsKept` | src/utils/csv/wise.ts:16-30 | When the schema accepts every row, every record is kept, in row order. |
| `WiseCsv.ParseWiseCsv` | src/utils/csv/wise.ts:10-37 | Rejected rows are dropped and parsing goes on. The result is the accepted rows' records in order, and a rejected row never fails the parse. |
| `WiseCsv.CleanTransaction` | src/utils/csv/wise.ts:43-52 | Counterparty, category, direction and date are copied verbatim. A numeric amount passes through unchanged; a string amount becomes the value `parseFloat` reads. |
| `WiseCsv.CleanAmountAgreesWithNumber` | src/utils/csv/wise.ts:45-48 | A string amount that is not blank and that `Number` accepts is cleaned to the value `Number` gives it. |
| `WiseCsv.CleanWiseTransactions` | src/utils/csv/wise.ts:40-53 | One clean transaction per record, same length and order, fields copied verbatim, amounts coerced as above. |
| `WiseCsv.TotalSpent` | src/utils/csv/wise.ts:56-62 | Equals the sum of the OUT source amounts, and is 0 when every transaction is IN. |
| `WiseCsv.TotalReceived` | src/utils/csv/wise.ts:64-70 | Equals the sum of the IN source amounts, and is 0 when every transaction is OUT. |
| `WiseCsv.TotalsPartition` | src/utils/csv/wise.ts:56-70 | Spent plus received equals the sum of all amounts. |
| `WiseCsv.CategorySummaries` | src/utils/csv/wise.ts:72-95 | As for BN Bank: OUT only, distinct keys in first-occurrence order, exact totals and counts (at least 1), average = total / count. Totals add up to the total spent; all-IN input gives []. |
| `WiseCsv.TargetSummaries` | src/utils/csv/wise.ts:97-120 | The same, per counterparty. |
| `WiseCsv.SortByAmount` | src/utils/csv/wise.ts:122-126 | A permutation of the input, non-increasing in total, stable. |
| `WiseCsv.SortByCount` | src/utils/csv/wise.ts:128-132 | A permutation of the input, non-increasing in count, stable. |
| `WiseExamples.GroceriesSummary` | src/utils/csv/wise.ts:72-95 | Groceries bought for 30 and 70, plus one top-up, give the single row Groceries, total 100, count 2, average 50. |
| `WiseExamples.SortByAmountIsStable` | src/utils/csv/wise.ts:122-126 | Sorting totals 10, 20, 10 puts 20 first and keeps the two 10s in input order. |
| `LegacyCsv.TransformValue` | src/utils/csvUtils.ts:10-20 | A field becomes a number exactly when its column is one of the four numeric columns and `parseFloat` finds a number. That number is the one `parseFloat` reads. Otherwise the raw text is kept. |
| `LegacyCsv.TransformAgreesWithNumber` | src/utils/csvUtils.ts:12-17 | In a numeric column, a field that is not blank and that `Number` accepts becomes the number `Number` reads. |
| `LegacyCsv.TransformRow` | src/utils/csvUtils.ts:10-20 | Same columns. Non-numeric columns keep their text; numeric ones go through the transform. |
| `LegacyCsv.ParseCsv` | src/utils/csvUtils.ts:10-27 | Fails exactly when the tokeniser reported an error, and then returns those errors. Otherwise every row is returned with the same columns and no validation: non-numeric columns keep their text, and each of the four numeric columns holds its field's transform. |
| `LegacyCsv.TextColumnsSurvive` | src/utils/csvUtils.ts:19 | A non-numeric column reads back as the text the tokeniser produced. |
| `LegacyCsv.CleanTransactions` | src/utils/csvUtils.ts:36-44 | Same length and order. `sourceAmount` is copied as it is, number or text, with no coercion. Direction is the raw text. |
| `LegacyCsv.TotalSpent` | src/utils/csvUtils.ts:47-51 | The sum of the amounts whose direction is exactly "OUT". |
| `LegacyCsv.TotalReceived` | src/utils/csvUtils.ts:54-58 | The sum of the amounts whose direction is exactly "IN". |
| `LegacyCsv.TotalsPartition` | src/utils/csvUtils.ts:47-58 | Spent plus received equals the sum of all amounts, but only when every direction is "IN" or "OUT". |
| `LegacyCsv.CategorySummaries` | src/utils/csvUtils.ts:61-81 | OUT only, distinct keys in first-occurrence order, exact totals and counts (at least 1), average = total / count. Totals add up to the total spent. |
| `LegacyCsv.TargetSummaries` | src/utils/csvUtils.ts:84-104 | The same, per counterparty. |
| `LegacyCsv.SortByAmount` | src/utils/csvUtils.ts:107-109 | A permutation of the input, non-increasing in total, stable. |
| `LegacyCsv.SortByCount` | src/utils/csvUtils.ts:112-114 | A permutation of the input, non-increasing in count, stable. |
| `Aggregation.WithDirection` | src/utils/csv/bnBank.ts:100-102 | `filter` by direction keeps as many entries as the input has in that direction, and every one kept has it. |
| `Aggregation.GroupsMatchReference` | src/utils/csv/bnBank.ts:99-112 | The `Map` built by `filter` (`WithDirection`) then `forEach` with get-or-zero and `set` (`Accumulate`, one `Upsert` per entry) equals the reference groups. Those are: one per spending key, in first-occurrence order, with the exact amount spent and number of OUT entries. |
| `Aggregation.SpendingGroupsFacts` | src/utils/csv/bnBank.ts:99-112 | The groups have distinct keys in first-occurrence order and counts of at least 1. Their totals add up to the total spent and their counts to the number of OUT entries. There are no groups when nothing is OUT. |
| `Aggregation.SpendKeys` | src/utils/csv/bnBank.ts:103-111 | The spending keys are distinct, and a key appears exactly when some OUT entry has it. |
| `Aggregation.SpendCountPositive` | src/utils/csv/bnBank.ts:100-111 | A key is counted exactly when some OUT entry has it. |
| `Aggregation.CountWhereZero` | src/utils/csv/bnBank.ts:100-102 | No entry is counted for a direction exactly when no entry has it. |
| `Aggregation.FilteredSum` | src/utils/csv/bnBank.ts:83-85 | Filtering by direction and then reducing with `+` from 0 gives the sum of that direction's amounts. |
| `Aggregation.TotalSpent` | src/utils/csv/bnBank.ts:80-86 | Equals the sum of the OUT amounts. |
| `Aggregation.TotalReceived` | src/utils/csv/bnBank.ts:88-94 | Equals the sum of the IN amounts. |
| `Aggregation.TotalsPartition` | src/utils/csv/bnBank.ts:80-94 | When every entry is IN or OUT, spent plus received is the sum of all amounts. |
| `Aggregation.CategorySummaries` | src/utils/csv/bnBank.ts:96-119 | Summary rows match the reference: keys, exact totals and counts, average = total / count, distinct keys. The sums match the totals; nothing spent gives []. |
| `Aggregation.TargetSummaries` | src/utils/csv/bnBank.ts:121-144 | The same, per counterparty. |
| `Sorting.SortByCorrect` | src/utils/csv/bnBank.ts:149 | The insertion sort returns a sequence sorted by the comparator. It is a permutation of the input, and elements the comparator ties keep their input order. |
| `Sorting.SortDescending` | src/utils/csv/bnBank.ts:149 | `[...xs].sort((a, b) => b.key - a.key)` is a permutation, non-increasing in the key, stable. |
| `JsText.Keep` | src/utils/csv/bnBank.ts:52 | Deleting the characters a class matches leaves only characters outside it, drawn from the input, never more of them. |
| `JsText.KeepConcat` | src/utils/csv/bnBank.ts:52 | Deletion distributes over concatenation. |
| `JsText.KeepFixedPoint` | src/utils/csv/bnBank.ts:52 | Deletion changes nothing exactly when no character matches. |
| `JsText.ReplaceFirst` | src/utils/csv/bnBank.ts:53 | `replace(',', '.')` changes only the first comma, and leaves the length unchanged. |
| `JsText.IndexOf` | src/utils/csv/bnBank.ts:53 | The first position of the character, or -1 exactly when it is absent. |
| `JsText.NumberAgreesWithParseFloat` | src/utils/csv/bnBank.ts:59-64 | On text that is not blank and that `Number` accepts, `parseFloat` reads the same value. |
| `JsText.KeepMembership` | src/utils/dataLoader/bnBank.ts:57 | A character is in the kept text exactly when it is in the input and kept. |
| `JsText.DecimalPrefix` | src/utils/csv/wise.ts:47 | The decimal literal at the front of the text, as its value and length. A literal found is not empty and fits in the text. It begins with a digit, sign or point, and never stops inside a run of digits. Its value has the sign of a leading `-`. A digit string is read whole as its decimal value. The values of other literals are stated by `JsLiterals.DecimalLiteral` and `JsLiterals.IntegerLiteral`, and that it reads nothing but literals by `JsNumberText.PrefixIsLiteral`. |
| `JsText.ToNumber` | src/utils/csv/bnBank.ts:59-62 | `Number`: blank text is 0. Other accepted text begins, after white space, with a digit, sign or point. A digit string reads as its decimal value. Signed and fractional literals are covered by `JsLiterals.NumberReadsDecimal` and `JsLiterals.NumberReadsInteger`; which text is `NaN` by `JsNumberText.NumberExactlyLiterals`. |
| `JsText.ParseFloat` | src/utils/csvUtils.ts:16 | `parseFloat`: a number is found only when the text begins, after white space, with a digit, sign or point. A digit string reads as its decimal value. Signed and fractional literals are covered by `JsLiterals.NumberReadsDecimal` and `JsLiterals.NumberReadsInteger`; which text is `NaN` by `JsNumberText.ParseFloatReadsOnlyLiterals`. |
| `JsLiterals.DigitsValueConcat` | src/utils/csv/wise.ts:47 | Digits written one after the other, `d1 d2`, are worth `d1` times 10 to the number of digits of `d2`, plus `d2`. |
| `JsLiterals.DecimalLiteral` | src/utils/csv/wise.ts:47 | For all digit strings `d1` and `d2`, not both empty, and a sign that is none, `+` or `-`: the text `sign d1 '.' d2` is read whole. Its value is `d1` plus `d2` divided by 10 to the number of digits of `d2`, negated after a `-`. The text ends in a digit or the point. |
| `JsLiterals.FractionValue` | src/utils/csv/wise.ts:47 | `d1` plus `d2` divided by 10 to the number of digits of `d2` equals the integer `d1d2` divided by the same power. |
| `JsLiterals.IntegerLiteral` | src/utils/csv/wise.ts:47 | For every non-empty digit string `d` and sign: the text `sign d` is read whole as the value of `d`, negated after a `-`. |
| `JsLiterals.NumberReadsDecimal` | src/utils/csv/bnBank.ts:59-64 | `Number` reads `sign d1 '.' d2` as the integer `d1d2` divided by 10 to the number of digits of `d2`, negated after a `-`. `parseFloat` reads the same value from that text followed by anything that begins with neither a digit nor a point; in this model, which has no exponent, that includes an `e`. |
| `JsLiterals.NumberReadsInteger` | src/utils/csvUtils.ts:16 | `Number` reads `sign d` as the value of `d`, negated after a `-`. `parseFloat` reads the same from that text followed by anything that begins with neither a digit nor a point, an `e` included in this model; "1,5" reads 1. |
| `JsText.ParseFloatIgnoresTrailingText` | src/utils/csv/wise.ts:47 | Text that follows a literal and begins with neither a digit nor a point does not change what `parseFloat` reads in this model, which has no exponent. |
| `JsNumberText.PrefixIsLiteral` | src/utils/csv/wise.ts:47 | Whatever the literal reader takes from the front of the text is one literal, `sign d1 '.' d2` with a digit on one side of the point or `sign d` with at least one digit, and the value it gives is that literal's value. Text with no literal at its front reads nothing. |
| `JsNumberText.NumberReadsOnlyLiterals` | src/utils/csv/bnBank.ts:59-64 | `Number` reads a value from text that is not blank only when the trimmed text is exactly one literal worth that value; "1x", "1.2.3", "+" and "." are `NaN`, so `isNaN` holds for them. |
| `JsNumberText.ParseFloatReadsOnlyLiterals` | src/utils/csvUtils.ts:16 | `parseFloat` reads a value only when, after leading white space, a literal worth that value stands at the front and no digit follows it; "+x", "." and "x1" are `NaN`. |
| `JsNumberText.NumberIgnoresSurroundingSpace` | src/utils/csv/bnBank.ts:59-62 | `Number` reads text and the same text without its surrounding white space alike. |
| `JsNumberText.LiteralIsNumber` | src/utils/csv/bnBank.ts:59-64 | Text that is exactly one literal worth `v` is read by `Number` as `v`. |
| `JsNumberText.NumberExactlyLiterals` | src/utils/csv/bnBank.ts:59-64 | `Number(s)` is `v` exactly when `s` is blank and `v` is 0, or when the trimmed text is one literal worth `v`; every other text is `NaN`. |
| `NumberExamples.ExponentAmountReadsAsOne` | src/utils/csv/wise.ts:45-48 | A Wise amount written "1e3" is cleaned to 1, because `parseFloat` stops at the `e` in this model. |
| `NumberExamples.ExponentFieldReadsAsOne` | src/utils/csvUtils.ts:12-17 | The older pipeline turns the source-amount field "1e3" into the number 1. |
| `DataManifest.AvailableMonths` | src/utils/dataLoader/common.ts:45-57 | Lists exactly the manifest's (year, month) keys, without repetition, strictly newest first; the first entry is the newest. |
| `DataManifest.GetDataFile` | src/utils/dataLoader/common.ts:60-70 | `null` when the year is missing, when the month is missing, or when the bank has no file. Otherwise the manifest's file. |
| `DataManifest.GetDataFileMatches` | src/utils/dataLoader/common.ts:60-70 | In a manifest whose files sit under their own keys, a file found has the year, month and bank asked for. |
| `DataManifest.FilesWellFiled` | src/utils/dataLoader/common.ts:7-42 | Every file of the shipped manifest sits under its own year, month and bank. |
| `DataManifest.ShippedMonths` | src/utils/dataLoader/common.ts:7-42 | The manifest lists April and May 2025, and both banks have a file for each. |
| `BnBankLoader.Sanitize` | src/utils/dataLoader/bnBank.ts:57 | The output holds only allowed characters (U+0020 to U+007E, `\n`, `\r`, `\t`, æøåÆØÅ), each drawn from the input, and is no longer than it. |
| `BnBankLoader.SanitizeKeepsExactlyAllowed` | src/utils/dataLoader/bnBank.ts:57 | A character survives exactly when it is in the input and allowed. |
| `BnBankLoader.SanitizeConcat` | src/utils/dataLoader/bnBank.ts:57 | The filter distributes over concatenation, so the output is the input with the other characters deleted, order kept. |
| `BnBankLoader.SanitizeFixedPoint` | src/utils/dataLoader/bnBank.ts:57 | Text comes out unchanged exactly when all of it is allowed. |
| `BnBankLoader.SanitizeIdempotent` | src/utils/dataLoader/bnBank.ts:57 | Filtering twice is filtering once. |
| `BnBankLoader.AvailableBnDataFilesOrder` | src/utils/dataLoader/bnBank.ts:12-30 | The list is May then April 2025, strictly newest first, and each file is the one the manifest gives for its month. |
| `BnBankLoader.LoadBnBankDataFile` | src/utils/dataLoader/bnBank.ts:39-61 | A cached path is answered from the cache without fetching. A failed fetch gives its status, and the cache is unchanged. Otherwise the sanitised, tokenised rows are validated. Success caches and returns the records. A rejected row gives a validation error naming the first rejected row, every row before it accepted, and leaves the cache unchanged. |

## Left out

- Papa Parse tokenisation is a parameter. That covers delimiters, the header row and `skipEmptyLines`. For the older pipeline the tokeniser's error list is a parameter too.
- The zod schemas `BnTransactionSchema` and `WiseTransactionSchema` are not part of this model. Each schema is a parameter that returns the validated record or nothing. The issue list of a rejection and the message text of the thrown error are not modelled.
- The `console.error` call that logs each rejected Wise row, with the schema's issues, is left out: logging is output only and changes no result.
- `fetch`, promises and async error propagation are not modelled: the fetch is a parameter from URL to response. A network error that rejects `fetch` itself is not modelled; only a response that is not OK is.
- The Wise loader (`src/utils/dataLoader/wise.ts`) and `src/utils/dataLoader.ts` are left out: they are I/O plumbing, and `loadAllData` sorts by dates in an unspecified format. The React components are left out as presentation.
- IEEE-754 is not modelled: amounts are exact reals, so sums and averages have no rounding.
- `NaN` is modelled as `None`. The number grammar has no exponent, no `Infinity`, and no hexadecimal, binary or octal form. So `Number("0x10")` is 16, `Number("0b101")` is 5 and `Number("0o7")` is 7 in JavaScript, but `NaN` here. Without an exponent, `parseFloat` in this model stops at an `e`: a Wise or older-pipeline amount written "1e3" becomes 1, where JavaScript reads 1000 (`NumberExamples.ExponentAmountReadsAsOne`). `Number("1e3")` is `NaN` here. "Infinity" reads as `NaN`, where JavaScript gives an infinite number.
- `JsLiterals.NumberReadsDecimal`: the `parseFloat` half holds in this model's grammar only. JavaScript continues a literal with an exponent, so `parseFloat("1.5e3")` is 1500, where the model reads 1.5 from "1.5" followed by "e3".
- `JsLiterals.NumberReadsInteger`: the `parseFloat` half holds in this model's grammar only. JavaScript reads "1" followed by "e3" as 1000, where the model reads 1.
- `JsText.ParseFloatIgnoresTrailingText`: holds in this model's grammar only. Text beginning with `e` or `E` followed by digits continues a JavaScript literal as its exponent, so JavaScript's `parseFloat("1e3")` is 1000, not `parseFloat("1")`.
- `JsNumberText.NumberReadsOnlyLiterals`: the `NaN` side is relative to this model's grammar. JavaScript's `Number` also accepts exponents, `Infinity` and hexadecimal, binary and octal literals, which the model reads as `NaN`.
- `JsNumberText.NumberExactlyLiterals`: the same grammar limit: "1e3", "Infinity" and "0x10" are numbers in JavaScript and `NaN` here.
- `JsNumberText.ParseFloatReadsOnlyLiterals`: the same grammar limit: `parseFloat("Infinity")` is infinite in JavaScript and `NaN` here, and a literal it reads never carries an exponent.
- `JsNumberText.PrefixIsLiteral`: the literals it names are those of this model's grammar, without exponent or `Infinity`.
- `NumberExamples.ExponentAmountReadsAsOne`: shows the model, not JavaScript. JavaScript's `parseFloat` reads "1e3" as 1000, but this grammar has no exponent, so the model cleans the amount to 1.
- `NumberExamples.ExponentFieldReadsAsOne`: shows the model, not JavaScript. JavaScript reads the field "1e3" as 1000, but this grammar has no exponent, so the model gives 1.
- `WiseCsv.CleanTransaction` and `WiseCsv.CleanWiseTransactions`: require every string amount to hold a number `parseFloat` can read. The code would store `NaN` for any other string.
- `LegacyCsv.TotalSpent`, `LegacyCsv.TotalReceived`, `LegacyCsv.CategorySummaries`, `LegacyCsv.TargetSummaries`: require every amount to be a number, as the declared type of a clean transaction says. A string amount would make JavaScript concatenate text instead of adding.
- `BnBankCsv.CleanTransaction`: a missing column reads as "". The code reads `undefined` for the description, subtype and date columns, and "" only for the two amount columns.
- `LegacyCsv.CleanTransactions`: a missing column reads as "", and a missing amount as the text "". The code reads `undefined` for every missing column.
- `WiseCsv.TotalsPartition`: the schema parameter returns records whose direction is "IN" or "OUT", as the declared record type says. The code casts the direction `as Direction` without checking it, so any other value would fall outside both totals.
- `WiseCsv.WiseTransaction` keeps only the five fields cleaning reads, and the type `Row` keeps every column of a row. The schema's stripping of unknown keys is not modelled.
- `DataManifest.AvailableMonths`: the keys are enumerated from the least up, as `Object.keys` lists integer keys. The result does not depend on this order, because the sort is stable and no two keys tie.
