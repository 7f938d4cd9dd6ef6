# Tank mass calculator: correction pipeline in Dafny

This project models the numeric core of a calculator that works out the mass of liquid product in a
fixed bullet tank from field readings: product density, product temperature, shell temperature,
liquid height and an optional pressure. The core does four table lookups:

- a product-temperature volume correction factor (VCF) from a temperature × density grid;
- a pressure correction factor (PCF), interpolated over a pressure table;
- a shell correction factor (SCF), exact match only;
- a reference volume from a height-to-capacity table, clamped at both ends.

`calculate` validates the inputs and combines the four lookups:
`correctedVolume = referenceVolume × VCF × SCF × PCF` and `mass = correctedVolume × density`.
The model also covers the reader for the percent-of-fill CSV and the lookup of a capacity from a fill percentage.

Modules, one per concern:

- `Results` (results.dfy): `Option` and `Result`. A thrown `Error` is an `Err` value.
- `Search` (search.dfy): the two scans every lookup repeats in the source. One finds the first row
  whose key equals the query. The other finds the first adjacent pair whose keys enclose the query.
  It also proves that a query strictly between the first and the last key always has such a pair,
  even when the table is unsorted.
- `Text` (text.dfy): JavaScript's `trim`, `split` on one character, `split(/\r?\n/)` and `filter(Boolean)`.
- `Interpolation` (interpolation.dfy): the table row types, the abstract interpolators, the textbook
  two-point formula, `parsePercentHeightCsv` and `interpolateCapacityFromPercent`.
- `Calculations` (calculations.dfy): the dataset, the inputs and results, `RANGES`, the four lookups and `calculate`.

The source's loops stay loops. `lookupSCF`, `lookupPCF`, `lookupReferenceVolumeFromHeight` and
`interpolateCapacityFromPercent` are methods with `for` loops, early `return`s and `break`s. Each one
is proved equal to a specification function (`ScfValue`, `PcfValue`, `ReferenceVolume`,
`CapacityFromPercent`). The promised behaviour is then proved about that function as lemmas.
`calculate` is a method, because it calls the lookup methods.

The bodies of `linearInterpolate(x, x0, x1, y0, y1)` and `bilinearInterpolateVCF(T, rho, grid)` are
not part of this model. Every operation that uses them takes them as function parameters, and the
lookups are stated as "interpolates over the bracket (lower, upper)". Some lemmas need the textbook
formula `y0 + (x − x0)(y1 − y0)/(x1 − x0)`, which gives `y0` on a degenerate axis. Those lemmas
require it through the ghost predicate `IsTwoPointLine`. This is an explicit ASSUMPTION about the
missing helper, not a proved fact. `TwoPointValueIsTwoPointLine` shows that the assumption can be met.
JavaScript's `Number(...)` is also a parameter (`NumberConversion`, with `None` for `undefined`).
Numbers are `real`.

Where the described design and the code differ, the model follows the code:

- Out of range, the generic bracket is described as index (0, 0). In the code, `lookupPCF` and
  `interpolateCapacityFromPercent` fall back to the first and the last row. `lookupPCF` therefore
  extrapolates over the whole span (`PcfOutsideSpanExtrapolates`), while `interpolateCapacityFromPercent`
  clamps (`PercentOutsideClamps`).
- The design assumes sorted tables. The code never checks this, so the model has no such
  precondition. Only the lemmas that need order require it (`StrictlyIncreasing`).
- `pcf` is optional in the result type, but `calculate` always sets it. Here it is a plain `real`.
- An empty PCF table is not handled by the code: `lookupPCF` reads `.pressure` of the missing first
  row and throws a `TypeError`. The model returns `Err(PressureTableEmpty)`.
- In `lookupReferenceVolumeFromHeight`, the final fallback after the bracket scan
  (calculations.ts:107) cannot be reached. A height strictly inside the table always finds an
  enclosing pair (`ReferenceVolumeInterior`). The model keeps the fallback as written.

## Model

| member | source | states |
|---|---|---|
| `Search.FirstMatch` | src/utils/calculations.ts:67 | returns the first index whose key equals the query, or None exactly when no key equals it |
| `Search.FirstBracket` | src/utils/calculations.ts:70-76 | returns the first index i with key[i] ≤ x ≤ key[i+1], or None exactly when no adjacent pair encloses x |
| `Search.InteriorHasBracket` | src/utils/calculations.ts:99-106 | a query strictly between the first and the last key always has an enclosing pair, sorted or not |
| `Search.BracketAtOrAfter` | src/utils/calculations.ts:99-106 | from a key below x, some later adjacent pair encloses x, given that the last key is above x |
| `Search.KeyFoundAtItsIndex` | src/utils/calculations.ts:67 | in a strictly increasing column, the exact-match scan finds each key at its own index |
| `Search.MidpointBracket` | src/utils/calculations.ts:67-76 | in a strictly increasing column, the midpoint of two adjacent keys matches no key and its first bracket is that pair |
| `Text.TrimStart` | src/utils/interpolation.ts:6 | the result is a suffix of the input, everything dropped is whitespace, and the result does not start with whitespace |
| `Text.TrimEnd` | src/utils/interpolation.ts:6 | the result is a prefix of the input, everything dropped is whitespace, and the result does not end with whitespace |
| `Text.Trim` | src/utils/interpolation.ts:6 | the result is the slice s[i..j] of the input, everything before i and from j on is whitespace, and neither end of the result is whitespace |
| `Text.TrimKeeps` | src/utils/interpolation.ts:6 | text that starts and ends with non-whitespace is unchanged by trim |
| `Text.Split` | src/utils/interpolation.ts:10 | split yields at least one piece, and no piece contains the separator |
| `Text.JoinOfSplit` | src/utils/interpolation.ts:10 | joining the pieces of a split with the separator gives back the original text |
| `Text.SplitOfJoin` | src/utils/interpolation.ts:10 | splitting separator-free pieces joined by the separator gives back the pieces |
| `Text.SplitAfterPiece` | src/utils/interpolation.ts:10 | a separator-free piece followed by the separator splits off as exactly one piece |
| `Text.SplitWithoutSeparator` | src/utils/interpolation.ts:10 | text without the separator splits into itself alone |
| `Text.SplitLines` | src/utils/interpolation.ts:6 | one line per line-feed-separated piece, at least one, and no line contains a line feed (the contents are pinned down by `Text.SplitLinesOfJoin`) |
| `Text.JoinLinesLf` | src/utils/interpolation.ts:6 | joining lines with the string "\n" is joining them with the line-feed character |
| `Text.JoinLinesCrlf` | src/utils/interpolation.ts:6 | lines joined with "\r\n" are the lines, all but the last with a carriage return appended, joined with line feeds |
| `Text.JoinLinesLast` | src/utils/interpolation.ts:6 | joined lines end with the last line's last character |
| `Text.SplitLinesOfJoin` | src/utils/interpolation.ts:6 | line-feed-free lines joined by CRLF split back into the same lines under `\r?\n`; joined by LF they do too, provided no line but the last ends in a carriage return |
| `Text.DropEmpty` | src/utils/interpolation.ts:9 | keeps exactly the non-empty lines and never grows; a list without empty lines is unchanged (order and multiplicity: `Text.DropEmptySingle`, `Text.DropEmptyAppend`) |
| `Text.DropEmptySingle` | src/utils/interpolation.ts:9 | a single line is kept exactly when it is not empty |
| `Text.DropEmptyAppend` | src/utils/interpolation.ts:9 | filtering a concatenation concatenates the filtered parts, so lines keep their order and their repetitions |
| `Interpolation.TwoPointBetween` | src/utils/calculations.ts:104 | for x0 ≤ x ≤ x1, the assumed two-point line stays between y0 and y1 |
| `Interpolation.TwoPointMidpoint` | src/utils/calculations.ts:77-83 | halfway between x0 ≠ x1, the assumed two-point line gives the average of y0 and y1 |
| `Interpolation.TwoPointValueIsTwoPointLine` | src/utils/calculations.ts:8 | the textbook formula satisfies the flagged two-point assumption, so the assumption can be met |
| `Interpolation.ParsePercentHeightRow` | src/utils/interpolation.ts:9-17 | percent is column 0 (the text before the first comma), and capacity_L = percent / 100 × 39557 |
| `Interpolation.ParsePercentHeightCsv` | src/utils/interpolation.ts:5-18 | at most one row per line after the header, and every row's capacity is percent / 100 × 39557 |
| `Interpolation.RowsComeFromDataLines` | src/utils/interpolation.ts:6-9 | every parsed row is read from some non-empty line after the header of the trimmed text |
| `Interpolation.CapacityIgnoresOtherColumns` | src/utils/interpolation.ts:10-16 | for a line `a,b,c`, the capacity comes from `a` alone and the height from `b`; a capacity column is ignored |
| `Interpolation.OneRowPerDataLine` | src/utils/interpolation.ts:6-16 | a header plus data lines joined by LF or CRLF reads back as one row per non-empty data line, in order; the header is dropped and empty lines are skipped |
| `Interpolation.CapacityFromPercent` | src/utils/interpolation.ts:21-22 | an empty table gives capacity 0 |
| `Interpolation.PercentExactMatch` | src/utils/interpolation.ts:25-26 | the first row whose percent equals the query gives its capacity, before any bracketing |
| `Interpolation.PercentBracketInterpolates` | src/utils/interpolation.ts:29-45 | without an exact match, the first enclosing pair is used, the query is strictly inside it, and the result interpolates over it |
| `Interpolation.PercentOutsideClamps` | src/utils/interpolation.ts:29-42 | without a match or a bracket, a query at or below the first percent gives the first capacity, and any other query gives the last capacity (no extrapolation) |
| `Interpolation.PercentWithinTable` | src/utils/interpolation.ts:41-45 | under the two-point assumption, the result lies between the capacities of two rows of the table |
| `Interpolation.InterpolateCapacityFromPercent` | src/utils/interpolation.ts:21-46 | the find, the bracket loop with break and the clamps compute exactly `CapacityFromPercent` |
| `Calculations.UsedPressure` | src/utils/calculations.ts:114 | a given pressure is used as is; an absent one becomes 17 bar, which lies inside the pressure range |
| `Calculations.LookupVCF` | src/utils/calculations.ts:61-63 | passes the temperature first and the density second to the bilinear VCF routine on the dataset's grid |
| `Calculations.ScfValue` | src/utils/calculations.ts:86-90 | succeeds exactly when some row's temperature equals the query, with the first such row's factor; otherwise fails with the not-found error, never using a neighbour |
| `Calculations.LookupSCF` | src/utils/calculations.ts:86-90 | the for-of scan with early return and the throw compute exactly `ScfValue` |
| `Calculations.PcfValue` | src/utils/calculations.ts:65-84 | fails exactly when the pressure table is empty |
| `Calculations.PcfExactMatch` | src/utils/calculations.ts:67 | the first row whose pressure equals the query gives its factor, before any bracketing |
| `Calculations.PcfFirstBracket` | src/utils/calculations.ts:68-83 | without an exact match, the factor interpolates over the first pair (i, i+1) with rows[i].pressure ≤ p ≤ rows[i+1].pressure |
| `Calculations.PcfFallsBackToWholeSpan` | src/utils/calculations.ts:68-83 | without a match or a bracket, the factor interpolates over (first row, last row) |
| `Calculations.PcfOutsideSpanExtrapolates` | src/utils/calculations.ts:68-83 | for a strictly increasing table, a pressure outside its span is extrapolated along the first-to-last line, not clamped |
| `Calculations.PcfMidpointIsAverage` | tests/calculations.test.ts:33-38 | under the two-point assumption, the factor halfway between two adjacent table pressures is the average of the factors at those pressures |
| `Calculations.LookupPCF` | src/utils/calculations.ts:65-84 | the exact-match scan and the bracket scan with break compute exactly `PcfValue` |
| `Calculations.ReferenceVolume` | src/utils/calculations.ts:92-108 | fails exactly on an empty table; at or below the first height gives the first capacity; above it and at or above the last height gives the last capacity |
| `Calculations.ReferenceVolumeInterior` | src/utils/calculations.ts:99-107 | a height strictly inside the table has a first enclosing pair; equal heights give its lower capacity, otherwise the result interpolates between the pair |
| `Calculations.ReferenceVolumeWithinTable` | src/utils/calculations.ts:96-107 | under the two-point assumption, the volume lies between the capacities of two table rows (clamped, never extrapolated) |
| `Calculations.LookupReferenceVolumeFromHeight` | src/utils/calculations.ts:92-108 | the guards, clamps, bracket scan and final fallback compute exactly `ReferenceVolume` |
| `Calculations.Calculate` | src/utils/calculations.ts:110-162 | rejects density, then product temperature, then pressure (default 17) out of range, never the height; then fails on the first failing lookup; on success: corrected volume = reference volume × VCF × SCF × PCF, the with-pressure volume equals it, mass = corrected volume × density, the used fields echo the inputs, and every clamp flag is false |

## Left out

- The CSV asset imports and the module-level `DATASET` (src/utils/calculations.ts:1-4, 25-30): the dataset is a parameter of every operation.
- `parseVCFCsv`, `parsePCFCsv`, `parseSCFCsv` and `parseHeightCapacityCsv`: their bodies are not part of this model.
- `bilinearInterpolateVCF` and `linearInterpolate`: their bodies are not part of this model, so they are function parameters. Some properties of the VCF grid (exact at grid points, linear between neighbours) depend on the missing bilinear routine, so they are not stated.
- `LookupVCF`: states only that it delegates to the bilinear routine, because that routine's body is not part of this model.
- `Number()`: a JavaScript library conversion, passed in as `NumberConversion`. Its NaN results are not modelled.
- IEEE-754 rounding, NaN and infinities: all numbers are exact `real`s.
- The `toFixed` formatting, the gauges, the results card (clipboard, download, print), the modals and the page: they are presentation and browser I/O.
- The call shape in tests/calculations.test.ts:8-25: it passes fields that `CalcInputs` does not have.
- Concurrency: the source is single-threaded and keeps no state between calls.
