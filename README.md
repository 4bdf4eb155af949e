# Price prediction: cleaning and lookup model

This project models the logic in `app.py` of a small Flask application. The
application loads a product table from CSV and normalises three numeric columns.
For each request, it looks up a product by name and passes three of its numbers
to three pre-trained regression models. The model covers:

- `clean_price`: delete every rupee sign `₹` (U+20B9), then every `,`, trim
  whitespace, and parse as a number. There is no fallback: text that does not
  parse is an error (`ValueError`).
- `clean_ratings`: parse as a number, and use `0.0` when parsing fails.
- The start-up cleaning (lines 29-31). `actual_price`, `ratings` and
  `no_of_ratings` are each replaced by their cleaner, applied element-wise. Each
  column is computed in full and then assigned to the table in place.
- The request path of `home` (lines 43-62). It selects the **first** row, in
  table order, whose `name` contains the query ignoring case; rows without a name
  never match. It builds the details record and the three-field feature record
  from that row, and applies the three models.

Modules, one per concern:

- `Wrappers` (`wrappers.dfy`): `Option`.
- `Text` (`text.dfy`): `str.replace(c, '')`, and trimming at both ends in two
  variants: `str.strip()`, which cuts every `str.isspace()` character, and the
  trimming `float()` does, which leaves the separators U+001C..U+001F in place.
- `Decimal` (`decimal.dfy`): an exact parser for decimal literals, and a
  formatter as its inverse partner.
- `Cleaners` (`cleaners.dfy`): `clean_price`, `clean_ratings`, and the `float`
  of text they rely on.
- `Dataset` (`dataset.dfy`): rows, the column-wise specification of lines
  29-31, and the in-place array methods that carry it out.
- `Lookup` (`lookup.dfy`): case-insensitive substring match, first-match
  selection, the details and feature records, and the `home` result.

A number is the exact rational `mantissa / 10^scale` that its literal denotes.
The three models are function parameters `Features -> real`.

On bad input the source behaves as follows:

- A price that does not parse raises `ValueError` and stops the load.
  `Dataset.CleanColumns` then returns `false` with the table unchanged, because
  the failing `apply` never reaches its assignment.
- A query that matches nothing makes `.iloc[0]` raise `IndexError` (an error
  page). In the model this is the `NotFound` outcome.
- `clean_ratings` does not delete thousands separators. A rating count written
  `"2,255"` is therefore cleaned to `0.0`, as the source does
  (`Cleaners.CleanRatingsCommaExample`).
- `clean_price` trims with `str.strip()` before `float` sees the text, while
  `clean_ratings` relies on `float`'s own trimming, which is narrower. On
  `"\x1c4.3"` the first reads 4.3 and the second falls back to `0.0`
  (`Cleaners.SeparatorExample`).

## Model

| member | source | states |
|---|---|---|
| Text.Remove | app.py:9 | `replace(c, '')` leaves no `c`; every other character keeps its number of occurrences, and membership is exactly "in the input and not `c`" |
| Text.RemoveAbsent | app.py:9 | deleting a character that does not occur returns the text unchanged |
| Text.RemoveAppend | app.py:9 | deletion works piecewise on a concatenation, so the characters that stay keep their order |
| Text.RemoveBetween | app.py:9 | deleting the one `c` between two stretches free of `c` joins the two stretches |
| Text.RemoveIdempotent | app.py:9 | deleting the same character twice equals deleting it once |
| Text.StripStart | app.py:9-16 | where trimming starts: every character before it is one the trim cuts, and the character at it (if any) is not |
| Text.StripEnd | app.py:9-16 | where trimming ends: every character from it on is one the trim cuts, and the character before it (if any) is not |
| Text.Strip | app.py:9-16 | `strip()` (and `float`'s trimming) returns the characters from the start index onwards, with nothing to cut at either end, and everything cut off at either end is a character the trim cuts |
| Text.StripTrimmed | app.py:9 | trimming text with nothing to cut at its ends changes nothing |
| Text.StripIdempotent | app.py:9 | `strip(strip(s)) == strip(s)`, for both trims |
| Text.StripKeepsAbsent | app.py:9 | trimming never introduces a character the text did not hold |
| Text.FloatAfterStrip | app.py:9 | after `str.strip()`, `float`'s own trimming has nothing left to cut |
| Text.StripWithoutSeparators | app.py:9-16 | on text without U+001C..U+001F, `str.strip()` and `float`'s trimming cut the same characters |
| Decimal.DigitsValue | app.py:9 | a run of n digits denotes a number below 10^n |
| Decimal.DigitsValueAppend | app.py:9 | digits written after other digits shift those left by their own count |
| Decimal.DigitRun | app.py:9 | the parser's leading digit run: all digits, followed by the end or a non-digit |
| Decimal.ScanFraction | app.py:9 | after the decimal point, the grammar accepts exactly non-empty runs of digits, or an empty run when a digit came before the point |
| Decimal.ScanDigits | app.py:9 | digits before the point only record that a digit was seen |
| Decimal.ParseUnsignedIff | app.py:9 | the unsigned parser succeeds exactly on the literals the grammar accepts |
| Decimal.ParseDecimal | app.py:9-16 | the literal reader inside `float`; specified by `ParseDecimalIff` (accepts exactly the grammar) and `ParseFormat` (reads back every written-out decimal) |
| Decimal.ParseDecimalIff | app.py:9 | `float` of a trimmed text succeeds exactly when it is a well-formed signed decimal literal |
| Decimal.DigitsOf | app.py:9 | the digit string written for n is non-empty, all digits, and reads back as n |
| Decimal.Zeros | app.py:9 | a run of zeros reads as 0 |
| Decimal.PaddedDigits | app.py:9 | zero-padding to a width keeps the value the digits denote |
| Decimal.FormatUnsigned | app.py:9 | a written-out unsigned decimal uses only digits and `.`, and starts and ends with a digit |
| Decimal.Format | app.py:9 | a written-out decimal uses only digits, `.` and `-`, and ends with a digit |
| Decimal.DigitRunStops | app.py:9 | the digit run of digits followed by a non-digit is exactly those digits |
| Decimal.ParseWhole | app.py:9 | a non-empty run of digits parses to its value with scale 0 |
| Decimal.ParsePointed | app.py:9 | `ip.fp` parses to the value of all its digits, with scale equal to the number of fraction digits |
| Decimal.ParseUnsignedFormat | app.py:9 | parsing a written-out unsigned decimal returns that decimal |
| Decimal.ParseMinus | app.py:9 | a leading `-` negates the unsigned value |
| Decimal.ParseNegated | app.py:9 | the round trip for negative decimals |
| Decimal.ParseNonNegative | app.py:9 | the round trip for non-negative decimals |
| Decimal.ParseFormat | app.py:9 | round trip: parsing the written-out form of any decimal returns exactly that decimal |
| Cleaners.ToFloat | app.py:9-16 | `float` of text: `float`'s trimming, then the literal reader; specified by `CleanPriceText`, `CleanRatingsText` and `SeparatorRejected` |
| Cleaners.CleanPrice | app.py:6-11 | `clean_price`; specified by `CleanPriceText` (text), `CleanPriceIdempotent` (numbers), `CleanFormatted` and the worked examples |
| Cleaners.CleanRatings | app.py:14-18 | `clean_ratings`; specified by `CleanRatingsText`, `StrictVersusLenient`, `CleanFormatted` and the worked examples |
| Cleaners.PriceText | app.py:8-9 | the text `clean_price` hands to `float` has no `₹`, no `,`, and no leading or trailing whitespace |
| Cleaners.PriceTextFixed | app.py:9 | text already free of `₹`, `,` and outer whitespace passes through unchanged |
| Cleaners.PriceTextIdempotent | app.py:9 | the string pre-processing of `clean_price` is idempotent |
| Cleaners.CleanPriceText | app.py:6-9 | `clean_price` on text succeeds exactly when the cleaned text is a decimal literal (which is also exactly when the decimal parser accepts it), and then returns that literal's value |
| Cleaners.CleanPriceIdempotent | app.py:9-11 | `clean_price(clean_price(x)) == clean_price(x)`: a cleaned price is a number and is returned as is |
| Cleaners.CleanRatingsText | app.py:14-18 | `clean_ratings` on text never fails: it returns the parsed value when the text trimmed as `float` trims it (ASCII and non-ASCII whitespace, not the separators U+001C..U+001F) is a literal, and `0.0` otherwise |
| Cleaners.StrictVersusLenient | app.py:6-18 | on text without `₹`, `,` and the separators U+001C..U+001F, both cleaners read the same number when there is one; when there is none, `clean_price` fails where `clean_ratings` returns `0.0` |
| Cleaners.FormatIsClean | app.py:9 | a written-out decimal contains nothing that `clean_price` deletes or trims |
| Cleaners.CleanFormatted | app.py:6-18 | both cleaners read any written-out decimal back as exactly its value |
| Cleaners.RemoveRupeeExample | app.py:9 | deleting `₹` from `"₹12,345.67"` gives `"12,345.67"` |
| Cleaners.RemoveCommaExample | app.py:9 | deleting `,` from `"12,345.67"` gives `"12345.67"` |
| Cleaners.StripExample | app.py:9 | `"12345.67"` is already trimmed |
| Cleaners.PriceTextRupeeExample | app.py:9 | the cleaned text of `"₹12,345.67"` is `"12345.67"` |
| Cleaners.DigitsExample | app.py:9 | the digits `"1234567"` denote 1234567 |
| Cleaners.ParseExample | app.py:9 | `"12345.67"` parses to mantissa 1234567, scale 2 |
| Cleaners.CleanPriceRupeeExample | app.py:5-9 | `clean_price("₹12,345.67") == 12345.67`, as the comment promises |
| Cleaners.ParseRatingExample | app.py:16 | `"4.3"` is trimmed and parses to mantissa 43, scale 1 |
| Cleaners.RatingValueExample | app.py:16 | `float("4.3") == 4.3` |
| Cleaners.CleanRatingsNumberExample | app.py:16 | `clean_ratings("4.3") == 4.3` |
| Cleaners.NotANumber | app.py:16 | `"N/A"` is trimmed and is not a literal |
| Cleaners.CleanRatingsFallbackExamples | app.py:15-18 | `clean_ratings("N/A") == 0.0` and `clean_ratings("") == 0.0` |
| Cleaners.CleanRatingsCommaExample | app.py:15-18 | `clean_ratings("2,255") == 0.0`: commas are not deleted, so the text does not parse |
| Cleaners.CleanPriceRejectsExample | app.py:9 | `clean_price("N/A")` fails; there is no `0.0` fallback |
| Cleaners.SeparatorStripped | app.py:9 | `str.strip()` cuts a leading U+001C: `"\x1c4.3"` becomes `"4.3"` |
| Cleaners.SeparatorRejected | app.py:16 | `float("\x1c4.3")` fails: `float` keeps the separator, which no literal starts with |
| Cleaners.SeparatorPriceText | app.py:9 | the text `clean_price` hands to `float` for `"\x1c4.3"` is `"4.3"` |
| Cleaners.SeparatorExample | app.py:6-18 | `clean_price("\x1c4.3") == 4.3` while `clean_ratings("\x1c4.3") == 0.0` |
| Dataset.WithCell | app.py:29-31 | assigning one column's cell changes that cell only; name, image, the other numeric columns and the unread columns stay |
| Dataset.PriceColumn | app.py:29 | `data['actual_price'].apply(clean_price)`; specified by `ApplyCleanPrice` and `CleanTableRowwise` |
| Dataset.RatingsColumn | app.py:30-31 | `apply(clean_ratings)` on a rating column; specified by `ApplyCleanRatings` and `CleanTableRowwise` |
| Dataset.Assign | app.py:29-31 | the column assignment; specified by `AssignColumn` and `CleanTableRowwise` |
| Dataset.CleanTable | app.py:29-31 | the three statements on values; specified by `CleanTableRowwise`, `CleanTableCleaned`, `CleanTableIdempotent` and `CleanColumns` |
| Dataset.CleanRow | app.py:29-31 | one row as the three statements leave it; the reference definition `CleanTableRowwise` compares `CleanTable` with |
| Dataset.CleanTableRowwise | app.py:29-31 | column cleaning fails exactly when some price fails. Otherwise it keeps the number and order of rows, and each row becomes that row cleaned on its own: price by `clean_price`, both rating columns by `clean_ratings`, every other column unchanged |
| Dataset.CleanTableCleaned | app.py:29-31 | after cleaning, all three numeric columns of every row hold numbers |
| Dataset.CleanTableIdempotent | app.py:29-31 | cleaning an already cleaned table returns it unchanged |
| Dataset.ApplyCleanPrice | app.py:29 | the `apply(clean_price)` loop returns the new price column, or fails at the first price that does not parse |
| Dataset.ApplyCleanRatings | app.py:30-31 | the `apply(clean_ratings)` loop returns the new column, element by element |
| Dataset.AssignColumn | app.py:29-31 | the column assignment overwrites one column in place, row by row, and nothing else |
| Dataset.CleanColumns | app.py:29-31 | the three statements in place: succeeds exactly when the column-wise specification does and leaves its table; on failure the table is unchanged |
| Lookup.Lower | app.py:43 | ASCII lower-casing of one character; specified by `LowerExamples` and `MatchingIgnoresCase` |
| Lookup.LowerText | app.py:43 | lower-casing of a text, character by character; specified by `LowerExamples` and `MatchingIgnoresCase` |
| Lookup.Matches | app.py:43 | the mask `str.contains(q, case=False, na=False)` for one row; specified by `Matching`, `FirstMatch`, `MatchingIgnoresCase` and `EmptyQuery` |
| Lookup.Contains | app.py:43 | substring search succeeds exactly when the pattern occurs at some position |
| Lookup.Matching | app.py:43 | the filtered rows: increasing positions, each a match, and every matching row included |
| Lookup.FirstMatch | app.py:43 | `.iloc[0]` of the filter is the smallest matching position, and that row has a name. It is `None` exactly when no row matches |
| Lookup.DetailsOf | app.py:44-50 | the `product_details` record; specified by `Home` through `Shows` |
| Lookup.FeaturesOf | app.py:53-57 | the feature record passed to the models; specified by `Home` through `Shows` |
| Lookup.Home | app.py:43-62 | `NotFound` exactly when no row matches. Otherwise the details are the first match's own fields, and each estimate is its model applied to a feature record holding exactly the shown ratings, rating count and price |
| Lookup.MatchingIgnoresCase | app.py:43 | queries equal after lower-casing filter the same rows |
| Lookup.FirstMatchIgnoresCase | app.py:43 | queries equal after lower-casing select the same row |
| Lookup.EmptyQuery | app.py:43 | the empty query selects the first row that has a name; rows without a name are skipped |
| Lookup.LowerExamples | app.py:43 | `"Red Shoe"`, `"RED SHOE"` and `"red shoe"` all lower-case to `"red shoe"` |
| Lookup.FirstOfTwoMatches | app.py:43 | with names `Red Shoe`, `Blue Shoe`, `Red Hat`, the query `"red"` selects `Red Shoe` although `Red Hat` matches too |
| Lookup.CaseInsensitiveExample | app.py:43 | `"RED SHOE"` and `"red shoe"` select the same row |
| Lookup.NotFoundExample | app.py:43 | `"nonexistent-item-xyz"` matches nothing, and the request is `NotFound` |
| Lookup.MockedModelsExample | app.py:43-62 | with models that always answer 10.0, 12.0 and 11.0, the page shows exactly those three estimates for `Red Shoe` |

## Left out

- Flask set-up, routing, the GET branch, form access and template rendering
  (lines 1, 34-40, 64-69). This is web plumbing with no logic to state. The query
  is a parameter of `Lookup.Home`.
- `joblib.load` and the models' `predict` (lines 21-23, 60-62). These are
  opaque pre-trained artifacts. They are the three function parameters of
  `Lookup.Home`, with no contract beyond being functions of the feature record.
- `pd.read_csv` (line 26): file I/O. The table is an input array or sequence of
  rows; columns the program never reads are kept as `rest`.
- StrictVersusLenient: requires text without the separators U+001C..U+001F,
  because on those the two cleaners differ even for a literal
  (`SeparatorExample`).
- Cleaners.ToFloat: reads exact decimal literals only. It does not model Python
  `float`'s IEEE rounding, exponents, `inf`/`nan`, `_` digit separators or
  non-ASCII digits, and `-0.0` is the same as `0.0`.
- Cleaners.CleanPrice, Cleaners.CleanRatings: a cell is either text or a
  number. Empty CSV cells (pandas NaN, which `float` accepts) and the
  `TypeError` that `clean_ratings` does not catch are not modelled.
- Lookup.Matches: the query is a literal substring. pandas
  `str.contains` treats it as a regular expression, so the two agree only on
  queries without regex metacharacters. Case is folded by ASCII lower-casing,
  not full Unicode case-insensitivity.
- The start-up load failing on an unreadable file or missing columns is not
  modelled; the table is assumed to have the five columns the program reads.
