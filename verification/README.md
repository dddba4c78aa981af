# LR1 evaluator, modelled in Dafny

The program evaluates a function `fun(x, y, z)` of three numbers. The function
is built from a reference table of samples `(x, T, U)`. A table lookup
interpolates linearly in the T or the U column. A cascade of branch-selected
formulas (`Srz`, `Srs1`, `Qrz`, `Rrz`, `Krn`, `fun1`, their copies and
variants `Srs2`, `Qrz1`, `Rrz2`, `Srs3`, `Qrz2`, `Rrz3`, `Krn2`, and the
table-free `fun5`) sits on top of the lookups. `fun` picks one of four
results.

The model has two modules:

- `ReferenceTable` (`reference_table.dfy`) covers the sample record
  `DataPoint` and the lookup `interpolate`, together with its two faces `T`
  and `U`. `Interpolate` follows the source's loop. It scans the pairs
  `(i - 1, i)` from the bottom and interpolates in the first pair whose
  closed interval holds the query. If no pair encloses the query, it returns
  the last sample's value. `InterpolateSpec` states this declaratively.
- `FormulaCascade` (`formula_cascade.dfy`) covers every formula of the
  cascade and the dispatch `Fun`. Each formula receives the table as its pair
  of lookups (`Lookups`), so its properties hold for any table. `Evaluate`
  runs the cascade on a concrete table. `Fun1` is written as `WeighKernels`
  applied to its two kernel values; this is the same expression as line 84,
  with the outer weighting named.

Numbers are real numbers. The natural logarithm is a parameter `ln`, defined
on the positive reals, so every use of it in the cascade is checked to
receive a positive argument.

## Model

| member | source | states |
|---|---|---|
| ReferenceTable.Lerp | LR1/LR1/LR1.cpp:38-41 | The interpolant between two samples passes through both samples. For an increasing pair it stays between the two sample values at every query inside the pair. |
| ReferenceTable.LerpStaysBetween | LR1/LR1/LR1.cpp:41 | The interpolation formula gives y1 at x1. Inside an increasing pair it lies between min(y0, y1) and max(y0, y1). |
| ReferenceTable.ScanFromFindsFirstBracket | LR1/LR1/LR1.cpp:36-44 | The loop started at index i returns the interpolation in the lowest pair at or above i that encloses the query. It returns the last sample's value when no such pair exists. |
| ReferenceTable.InterpolateSpec | LR1/LR1/LR1.cpp:35-45 | The lookup interpolates in the lowest enclosing pair. It returns the last sample's value when no pair encloses the query. |
| ReferenceTable.SingleSampleLookup | LR1/LR1/LR1.cpp:35-45 | A one-sample table answers every query with that sample's value, since the loop body never runs. |
| ReferenceTable.InterpolateWithinRange | LR1/LR1/LR1.cpp:35-45 | When every sample of the column lies in [lo, hi], every lookup, inside or outside the table, lies in [lo, hi]. |
| ReferenceTable.InterpolateWithinBracket | LR1/LR1/LR1.cpp:37-41 | Inside the lowest enclosing pair the lookup lies between that pair's two values. |
| ReferenceTable.InterpolateAtSample | LR1/LR1/LR1.cpp:35-45 | In a strictly increasing table, a query at a sample's coordinate returns that sample's value exactly. |
| ReferenceTable.InterpolateAboveTable | LR1/LR1/LR1.cpp:44 | In a strictly increasing table, a query above the last coordinate returns the last sample's value. |
| ReferenceTable.InterpolateBelowTable | LR1/LR1/LR1.cpp:36-44 | In a strictly increasing table, a query below the first coordinate also returns the LAST sample's value, not the first one. |
| ReferenceTable.InterpolateReadsOneColumn | LR1/LR1/LR1.cpp:39-40 | Two tables that agree on the coordinates and on column c give the same lookup of c, whatever the other column holds. |
| ReferenceTable.TIgnoresU | LR1/LR1/LR1.cpp:47-49 | T depends only on the coordinates and the T column. |
| ReferenceTable.UIgnoresT | LR1/LR1/LR1.cpp:51-53 | U depends only on the coordinates and the U column. |
| ReferenceTable.TwoSampleLookups | LR1/LR1/LR1.cpp:35-53 | On the table (0, 0, 0), (10, 100, 50): T(5) = 50, U(5) = 25, T(50) = 100, and T(-5) = 100, which differs from the first sample's T. |
| FormulaCascade.SrzOnDiagonal | LR1/LR1/LR1.cpp:55-59 | With x = y = z, Srz takes its second branch and its two U terms cancel, leaving T(x). |
| FormulaCascade.SrzWithinRange | LR1/LR1/LR1.cpp:55-59 | If both columns lie in [lo, hi], Srz (two lookups added, one subtracted) lies in [2lo - hi, 2hi - lo]. |
| FormulaCascade.Srs1IgnoresLogAtOrBelowOne | LR1/LR1/LR1.cpp:61-65 | At or below the threshold x² + 2y = 1 (the test is strict) Srs1 takes its second branch. The logarithm is not evaluated, so its value cannot matter. |
| FormulaCascade.Srs1LogSensitivity | LR1/LR1/LR1.cpp:61-65 | Above the threshold, changing the logarithm changes Srs1 by exactly y times the change of ln(x² + 2y). |
| FormulaCascade.QrzVanishes | LR1/LR1/LR1.cpp:67-71 | Qrz is 0 when x = 0, and when abs(x) >= 1 and y = 0, because of the factor each branch multiplies by. |
| FormulaCascade.Qrz1MatchesQrz | LR1/LR1/LR1.cpp:93-97 | The copy Qrz1 equals Qrz on every input and table. |
| FormulaCascade.Rrz2MatchesRrz | LR1/LR1/LR1.cpp:99-103 | The copy Rrz2 equals Rrz on every input and table. |
| FormulaCascade.RrzVanishesAtXZero | LR1/LR1/LR1.cpp:73-77 | Rrz(0, y, z) = 0, and likewise Rrz3(0, y, z) = 0 (lines 117-121): both branches carry the factor x. |
| FormulaCascade.KrnVanishes | LR1/LR1/LR1.cpp:79-81 | Krn is 0 at x = y = 0. On x = y its second term reads Rrz(0, ...) and drops out, leaving 73.1389 Rrz. |
| FormulaCascade.Krn2VanishesAtXZero | LR1/LR1/LR1.cpp:123-125 | Krn2 is 0 on the whole plane x = 0. |
| FormulaCascade.Fun1Cancels | LR1/LR1/LR1.cpp:83-85 | The last two terms of fun1 read the same kernel value, so on y = z fun1 is x times Krn. |
| FormulaCascade.Qrz2UsesFirstBranchOfSrs2 | LR1/LR1/LR1.cpp:87-115 | Qrz2 always calls Srs2 with z = y, where the non-strict test takes the first branch. So Qrz2 equals (x or y, by abs(x) < 1) times (Srz(x, y, y) + 1.44 y²). |
| FormulaCascade.Srs3TieTakesSecondBranch | LR1/LR1/LR1.cpp:105-109 | On a tie z = y the strict test of Srs3 takes its second branch: y + Srz(y, x, y). |
| FormulaCascade.Srs2AgainstSrs3 | LR1/LR1/LR1.cpp:87-109 | For z > y both formulas take their first branch, and Srs2 exceeds Srs3 by 0.44 y z. For z < y both take their second branch, and Srs2 is 1.44 y times (Srs3 - y). With the tie lemma this relates the two on every input. |
| FormulaCascade.QrzZeroSet | LR1/LR1/LR1.cpp:67-71 | Qrz is 0 exactly when the factor its abs(x) < 1 test selects (x, or else y) is 0, or Srs1 is 0. |
| FormulaCascade.Qrz2ZeroSet | LR1/LR1/LR1.cpp:111-115 | Qrz2 is 0 exactly when the factor its abs(x) < 1 test selects (x, or else y) is 0, or Srs2(x, y, y) is 0. |
| FormulaCascade.RrzZeroSet | LR1/LR1/LR1.cpp:73-77 | Rrz is 0 exactly when x = 0, or x > y and y or Qrz(y, z) is 0, or x <= y and z or Qrz(x, y) is 0. This is the set the second guard of fun tests, through the copy Rrz2. |
| FormulaCascade.Rrz3ZeroSet | LR1/LR1/LR1.cpp:117-121 | Rrz3 is 0 exactly when x = 0, or x > y and y or Qrz2(y, z) is 0, or x <= y and z or Qrz2(x, y) is 0. This is the set the third guard of fun tests. |
| FormulaCascade.KrnFirstTermOnly | LR1/LR1/LR1.cpp:79-81 | Krn equals 73.1389 Rrz(x, y, z) exactly when its second term's Rrz(x - y, z, y) is 0. |
| FormulaCascade.Krn2UnderSwap | LR1/LR1/LR1.cpp:123-125 | Swapping y and z swaps the weights of Krn2's two Rrz3 terms. Summed over both orders they weigh 87.9769 each. In the difference they weigh 78.3009. |
| FormulaCascade.Fun1Regroups | LR1/LR1/LR1.cpp:83-85 | fun1 is x times Krn(x, y, z) plus (y - z) times Krn(x, z, y), on every input. |
| FormulaCascade.FunRoutes | LR1/LR1/LR1.cpp:131-136 | The dispatch in order: above the threshold fun1; otherwise Krn when Rrz is nonzero; otherwise Krn2 when Rrz3 is nonzero; otherwise fun5. |
| FormulaCascade.FunOnXZeroPlane | LR1/LR1/LR1.cpp:127-136 | On x = 0 with 2y <= 1, both guards see 0, so fun returns fun5(0, y, z) = 23.23 y whatever the table and logarithm. In particular fun(0, 0, 0) = 0. |
| FormulaCascade.EvaluateWorkedExample | LR1/LR1/LR1.cpp:35-136 | On the table (0, 0, 0), (1, 10, 5), (2, 20, 10), fun(0.5, 0.5, 0.5) goes through fun1 and equals 22.85590625 + 2.285590625 ln(1.25). |

## Left out

- `readData` (lines 24-33), the file-name selection and input reading in `main`, and the exception classes `FileOpenException` and `InvalidInputException`: these are file and console I/O. The model takes the table as a value. Its requirement `WellFormed` includes non-emptiness, which `readData` enforces by throwing on an empty file.
- Interpolate: the model requires adjacent samples to have distinct coordinates (`WellFormed`). The source divides 0 by 0, and yields NaN, only when its scan reaches a flat pair with the query on it. The model excludes every table with a flat pair instead of modelling NaN.
- Interpolate: the model therefore also excludes ascending tables with a repeated interior coordinate, such as step tables. The source evaluates these without NaN at every query, because the pair just below a flat pair matches first. For example, on (0, 0, 0), (1, 10, 5), (1, 20, 10), (2, 30, 15) the query 1 returns 10 from the pair (0, 1).
- IEEE-754 double arithmetic is replaced by exact real arithmetic. This covers rounding, NaN and infinities, and also the way NaN would pass the `!= 0` guards of `fun`. Decimal constants such as 73.1389 and 1.44 are therefore exact rationals, not their nearest doubles.
- The value of the natural logarithm is left out. `ln` is a parameter of type positive real to real. The model checks only that it is called on positive arguments and where its result enters.
- Interpolate: there is no low clamp. A query below the first coordinate returns the last sample, and the model follows the code (`InterpolateBelowTable`).
- Fun5 carries no separate contract. It is a closed polynomial with no branches, and `FunOnXZeroPlane` states its value where `fun` reaches it without a table.
