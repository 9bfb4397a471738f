# M/M/2 calculator: formatter and calculation engine

The application is a small web page that computes, for a two-server queue
given as a mean interarrival time and a mean service time (both in
minutes), the arrival rate λ, the service rate per server μ, the
utilisation ρ, the time in system W and the queue wait Wq, using the
assignment's own formulas (not the textbook M/M/2 results):

- λ = 1 / interarrival_min, μ = 1 / service_min, ρ = λ / (2μ);
- W = 1 / (μ − λ/2), Wq = λ² / (2μ(μ − λ/2)).

It also builds the five "langkah" (steps) shown on the page: a formula, a
few substitution lines and the unrounded result.

This project models the two pure parts of `app.py`:

- `formatter.dfy`, module `Formatter`: `fmt(x, ndigits)`. It does an
  optional decimal rounding (Python `round`, half to even), then writes an
  integral value as integer text and any other value as the float's own
  text. Floats are exact `real`s. The text of a non-integral float is the
  function parameter `floatText`, about which nothing is assumed. Integer
  text (`IntText`) is modelled in full and reads back through `ParseInt`.
- `mm2.dfy`, module `QueueCalc`: `hitung_mm2`. Its inputs are
  `Option<real>`, where `None` is Python's `None`. Each `ValueError` becomes a
  `Failure` carrying one of three `CalcError`s, which hold the exact
  messages. A successful call returns a `Report` with the echoed inputs, the
  five metrics and the five steps. Each step line is a string built from
  `fmt` applied to the same quantities the source formats.

The proved properties cover the following.

- Validation order: missing, then non-positive, then unstable.
- The stability guard, three equivalent ways: μ − λ/2 > 0, ρ < 1, and
  service_min < 2 · interarrival_min.
- Closed forms of all five metrics.
- Positivity of every metric and of every denominator.
- The relation Wq = ρλW.
- The shape of the step list.
- The rounding and integer-text behaviour of `fmt`.

These formulas do not give W = Wq + service_min in general. It holds
exactly when interarrival_min = 1
(`QueueCalc.SojournIsWaitPlusServiceOnlyForUnitInterarrival`). Inputs 2 and
3 give W = 12 and Wq = 4.5 (`QueueCalc.ExampleTwoThree`).

## Model

| member | source | states |
|---|---|---|
| Formatter.Fmt | app.py:5-16 | If the (optionally rounded) value is integral, the result has no decimal point and reads back as that integer. Otherwise the result is the float text of the rounded value. Every real input gives a string. |
| Formatter.Displayed | app.py:12-13 | With no ndigits the value is used as given. With ndigits it has at most that many fractional digits and lies within half a unit of the last digit of x. |
| Formatter.FmtRoundsFirst | app.py:12-15 | fmt(x, n) equals fmt(round(x, n)): rounding comes before the integral test. |
| Formatter.FmtOnGridIgnoresDigits | app.py:12-13 | Giving ndigits changes nothing for a value that already has at most that many fractional digits. |
| Formatter.FmtCollapsesNearInteger | app.py:13-15 | A value that rounds to a whole number is rendered as integer text without a point. That integer is within half a unit of the last shown digit of x. |
| Formatter.FmtIntegralText | app.py:14-15 | An integral value is written as canonical decimal digits (no leading zeros), with a leading '-' when negative. |
| Formatter.FmtExamples | app.py:8-10 | 4.0 gives "4" and 3.5 gives its float text. 3.14159 rounded to 4 digits gives the float text of 3.1416. 2.00001 rounded to 4 digits gives "2". -12.0 gives "-12". |
| Formatter.IntTextRoundTrip | app.py:15 | The text of int(x) parses back to the same integer and contains no decimal point. |
| Formatter.NatTextRoundTrip | app.py:15 | The decimal digits of a natural number read back as that number. |
| Formatter.CanonicalRoundTrip | app.py:15 | Every canonical digit string is the decimal text of its value, so integer text is one-to-one. |
| Formatter.NatText | app.py:15 | The decimal text of a natural number is canonical, and it is one character long exactly for numbers below 10. |
| Formatter.RoundHalfEven | app.py:13 | round(s) is within 1/2 of s, is even on a tie, and leaves integers unchanged. |
| Formatter.RoundHalfEvenIsNearest | app.py:13 | No integer is strictly closer to s than round(s). |
| Formatter.RoundToBounds | app.py:13 | round(x, n) has at most n fractional digits and lies within half a unit of the n-th digit of x. |
| Formatter.RoundToOnGrid | app.py:13 | round(x, n) is x when x already has at most n fractional digits. |
| Formatter.RoundToIdempotent | app.py:13 | Rounding twice to n digits gives the same value as rounding once. |
| Formatter.RoundToIsNearest | app.py:13 | No value with at most n fractional digits is strictly closer to x than round(x, n). |
| Formatter.IntText | app.py:15 | str(int(x)) starts with '-' exactly for negative values, followed by canonical digits. |
| Formatter.IsIntegral | app.py:14 | float(x).is_integer(): x is a whole number. |
| Formatter.RoundTo | app.py:13 | round(x, ndigits) on exact values. Its contract is stated by RoundToBounds, RoundToOnGrid, RoundToIdempotent and RoundToIsNearest. |
| QueueCalc.Stable | app.py:44-46 | The guard μ − λ/2 > 0, computed as the source does. Its meaning is stated by the two Stable… lemmas. |
| QueueCalc.Plain | app.py:64-74 | fmt(x): Fmt with no digits, so the value is shown unrounded. |
| QueueCalc.Shown | app.py:65-109 | fmt(x, pembulatan): Fmt with DisplayDigits = 4. |
| QueueCalc.CalcError.Message | app.py:28-47 | The three ValueError messages of app.py:29, 31 and 47, character for character. MessagesDistinct proves them pairwise distinct. |
| QueueCalc.Compute | app.py:18-118 | Fails with the empty-input error exactly when an input is None. Fails with the non-positive error exactly when both are present and one is ≤ 0. Fails with the unstable error exactly when both are positive and service_min ≥ 2 · interarrival_min. On success the record echoes the inputs, holds the metrics of the formulas, and has a well-formed step list. |
| QueueCalc.SucceedsIff | app.py:28-47 | A record is returned exactly for present, positive inputs with service_min < 2 · interarrival_min. |
| QueueCalc.MetricsOf | app.py:33-54 | λ = 1/a, μ = 1/s, ρ = s/(2a), W = 2as/(2a − s) and Wq = s²/(a(2a − s)), for interarrival a and service s. |
| QueueCalc.UtilizationClosedForm | app.py:40-41 | λ/(2μ) = s/(2a). |
| QueueCalc.SojournClosedForm | app.py:44-49 | μ − λ/2 = (2a − s)/(2as), and its reciprocal is 2as/(2a − s). |
| QueueCalc.QueueWaitClosedForm | app.py:52-54 | λ²/(2μ(μ − λ/2)) = s²/(a(2a − s)). |
| QueueCalc.StableIffServiceBelowTwiceInterarrival | app.py:44-47 | The guard μ − λ/2 > 0 holds exactly when service_min < 2 · interarrival_min. |
| QueueCalc.StableIffUtilizationBelowOne | app.py:39-47 | The guard μ − λ/2 > 0 holds exactly when ρ < 1. |
| QueueCalc.MetricsPositive | app.py:33-54 | On success λ, μ, ρ, W and Wq are all positive, ρ < 1, and the Wq denominator 2μ(μ − λ/2) is positive. |
| QueueCalc.WqIsRhoLambdaW | app.py:41-54 | Wq = ρ · λ · W. |
| QueueCalc.SojournIsWaitPlusServiceOnlyForUnitInterarrival | app.py:49-54 | W = Wq + service_min holds exactly when interarrival_min = 1. |
| QueueCalc.GapTimesDenominator | app.py:49-54 | (W − Wq − s) · a(2a − s) = s²(a − 1). |
| QueueCalc.DerivationSteps | app.py:56-113 | There are exactly five steps, in the order λ, μ, ρ, W, Wq, with 3, 3, 4, 5 and 4 lines. Each stores its metric unrounded, has the source's formula text and opens with it, writes every line as "<symbol> = …" and ends with the metric formatted to 4 digits. Steps 1 and 2 substitute the input unrounded. Steps 3 to 5 substitute λ, μ and the intermediate quantities, each formatted to 4 digits, exactly as the source's lines do. |
| QueueCalc.LambdaStep | app.py:59-68 | Step 1 stores λ and has exactly 3 lines, each starting with "λ = ". The first is its formula "λ = 1 / (waktu antar kedatangan)", the second is "λ = 1 / " followed by fmt(interarrival_min) and the last shows λ formatted to 4 digits. |
| QueueCalc.MuStep | app.py:69-78 | Step 2 stores μ and has exactly 3 lines, each starting with "μ = ". The first is its formula "μ = 1 / (waktu pelayanan)", the second is "μ = 1 / " followed by fmt(service_min) and the last shows μ formatted to 4 digits. |
| QueueCalc.RhoStep | app.py:79-89 | Step 3 stores ρ and has exactly 4 lines, each starting with "ρ = ": the formula "ρ = λ / (2μ)", then "λ / (2 × μ)" and "λ / 2μ" with λ, μ and 2μ formatted to 4 digits, then ρ formatted to 4 digits. |
| QueueCalc.WStep | app.py:90-101 | Step 4 stores W and has exactly 5 lines, each starting with "W = ". They are the formula "W = 1 / (μ - λ/2)", then "1 / (μ - λ/2)" with μ and λ each formatted to 4 digits, then "1 / (μ - x)" with x = λ/2 formatted, then "1 / y" with y = μ − λ/2 formatted, then W formatted to 4 digits. |
| QueueCalc.WqStep | app.py:102-112 | Step 5 stores Wq and has exactly 4 lines, each starting with "Wq = ": the formula "Wq = λ² / (2μ(μ - λ/2))", then "λ² / (2μ × (μ − λ/2))" and "λ² / (2μ(μ − λ/2))" with each quantity formatted to 4 digits, then Wq formatted to 4 digits. |
| QueueCalc.MakeStepLines | app.py:58-113 | A step built from its right-hand sides keeps its title and has one line "<sym> = <rhs>" per right-hand side, in order. With at least three of them, the first the formula and the last the shown result, it has the step shape. |
| QueueCalc.LineStartsWithSymbol | app.py:62-66 | Every line "<sym> = <rhs>" starts with "<sym> = ". |
| QueueCalc.StepResultsKeepFullPrecision | app.py:57-117 | In a returned record, step i stores the i-th metric of the record's result map at full precision. Its last line shows that metric rounded to 4 digits before the integral test. |
| QueueCalc.LastLineShowsResult | app.py:58-113 | In a record of the right shape, step i stores the i-th metric and its last line shows it formatted. |
| QueueCalc.LaterStepsReuseShownRates | app.py:62-97 | Steps 3 and 4 substitute for λ and μ exactly the texts that close steps 1 and 2. |
| QueueCalc.SubstitutionsRoundOnlyDerivedValues | app.py:64-84 | In a returned record, steps 1 and 2 substitute fmt(interarrival_min) and fmt(service_min) unrounded. Step 3 substitutes λ and μ rounded to 4 digits before the integral test. |
| QueueCalc.OpeningSubstitutions | app.py:64-84 | The same three lines for any record with the source's substitution lines. |
| QueueCalc.MessagesDistinct | app.py:28-47 | The three error messages are pairwise distinct. |
| QueueCalc.ExampleTwoThree | app.py:18-54 | Inputs 2 and 3 succeed with λ = 0.5, μ = 1/3, ρ = 0.75, W = 12 and Wq = 4.5. |
| QueueCalc.ExampleUnstable | app.py:44-47 | Inputs 1 and 3 fail as unstable. |
| QueueCalc.ExampleBoundary | app.py:44-47 | Inputs 1 and 2 (μ − λ/2 = 0) fail as unstable, because the guard is ≤ 0. |
| QueueCalc.ExampleInvalid | app.py:28-31 | Inputs 0 and 1 fail as non-positive. An absent input is reported before a negative one. |

## Left out

- The Flask route `index` (app.py:121-155) is web plumbing and library calls. This covers form reading, stripping, the empty-field check, `float()` parsing, template rendering and the catch-all `Exception` handler.
- Start-up (app.py:157-160): the `PORT` environment lookup and `app.run` are I/O and configuration.
- IEEE-754 arithmetic is not modelled. Every quantity is an exact real, so binary rounding error, NaN and infinities are not represented.
- The OverflowError paths are not modelled. A Python int too large for a float makes `float(x)` in `fmt` (app.py:14) raise OverflowError, and likewise `1.0 / interarrival_min` and `1.0 / service_min` in `hitung_mm2` (app.py:34, 37). That error is not a ValueError. The model instead returns a string from `Fmt` or a result from `Compute`.
- Formatter.RoundTo: models exact decimal rounding, half to even. Python's `round` on a binary float can break a tie the other way, because the stored value is not exactly the decimal written.
- Formatter.Fmt: the text of a non-integral float (Python's shortest `repr`) is the parameter `floatText`. Nothing is stated about that text beyond which value it is applied to.
- Formatter.Fmt: `ndigits` is a natural number. Python's negative `ndigits` (rounding to tens, hundreds, …) is not modelled, because the calculator only passes 4.
- The `isinstance` test in `fmt` (app.py:14) is not modelled. It holds for every int and float argument. Values are reals, so Python's int/float distinction is absent, and so is the overflow of a huge int noted above.
- Calling `hitung_mm2` with non-numeric arguments is not modelled. The only non-numeric input modelled is `None`, as `Option.None`.
- QueueCalc.DerivationSteps: the step titles ("judul") are built as in the source, but no contract states their text.
