# Kalorilaskuri calorie estimator, in Dafny

Kalorilaskuri is a one-screen Android app. The user types a weight in
kilograms, picks a sex with two radio buttons ("Mies", "Nainen") and an
activity level from a dropdown ("Matala", "Tavallinen", "Keskitaso",
"Korkea", "Erittäin korkea"), and presses "Laske". The function
`laskeKalorit` then computes the estimate:

- it parses the weight text; on failure the result is `null`;
- it picks a basal rate: `88.362 + 13.397·w` for "Mies", `447.593 + 9.247·w`
  for "Nainen", `null` for any other text;
- it picks a coefficient 1.3, 1.5, 1.7, 2.0 or 2.2 for the five levels,
  `null` for any other text;
- it rounds the product to the nearest integer, ties to the even one.

The model is pure and has three modules:

- `Wrappers` (`wrappers.dfy`): `Option`, standing for Kotlin's nullable types:
  the `Double?` result, and the outcome of a `when` match (a sex, a level or
  nothing).
- `KotlinMath` (`kotlin_math.dfy`): `Round`, the nearest-integer rounding of
  `kotlin.math.round`, on exact reals. It comes with lemmas that it is the
  unique nearest integer with ties to even, and that it is monotone.
- `Kalorilaskuri` (`kalorilaskuri.dfy`): `Sex` and `Activity` as enumerated
  datatypes and the formula. Each of the two `when` expressions becomes a
  branch table, which `When` searches top to bottom for the first literal equal
  to the subject. `Estimate` is `laskeKalorit`. The last group of lemmas
  relates `Estimate` to the literals on the screen.

The weight parser `String.toDoubleOrNull` lives in the Kotlin library, so
`Estimate` takes it as a parameter `parse: string -> Option<real>`. Every
property holds for every such parser. The worked examples assume only what
they need of it: "70" reads as 70, "60" reads as 60, and "" is rejected.

English names are not accepted: the code compares with "Mies" and "Nainen"
only, so "Male" gives `null`. `Kalorilaskuri.ScenariosRejected` states this case.

Purity means that repeated calls with the same inputs give the same result.
In Dafny this holds by construction, so no lemma states it.

## Model

| member | source | states |
|---|---|---|
| `KotlinMath.Round` | app/src/main/java/com/example/kalorilaskuri/MainActivity.kt:167 | the result is an integer within 1/2 of the argument; at distance exactly 1/2 it is the even integer |
| `KotlinMath.RoundUnique` | app/src/main/java/com/example/kalorilaskuri/MainActivity.kt:167 | an integer strictly within 1/2 of x, or an even integer exactly 1/2 away, is Round(x), so the contract of Round determines it |
| `KotlinMath.RoundIsNearest` | app/src/main/java/com/example/kalorilaskuri/MainActivity.kt:167 | no integer is closer to x than Round(x) |
| `KotlinMath.RoundMonotone` | app/src/main/java/com/example/kalorilaskuri/MainActivity.kt:167 | x <= y implies Round(x) <= Round(y) |
| `KotlinMath.RoundTiesToEven` | app/src/main/java/com/example/kalorilaskuri/MainActivity.kt:167 | 0.5, 1.5, 2.5, -0.5 and -1.5 round to 0, 2, 2, 0 and -2; 2.4 and 2.6 round to 2 and 3 |
| `KotlinMath.Dist` | app/src/main/java/com/example/kalorilaskuri/MainActivity.kt:167 | the distance is non-negative and is one of the two differences |
| `Kalorilaskuri.SexLabel` | app/src/main/java/com/example/kalorilaskuri/MainActivity.kt:88-98 | each sex's literal is one of the two radio-button values |
| `Kalorilaskuri.ActivityLabel` | app/src/main/java/com/example/kalorilaskuri/MainActivity.kt:106 | each level's literal is the dropdown entry at that level's position |
| `Kalorilaskuri.Rank` | app/src/main/java/com/example/kalorilaskuri/MainActivity.kt:106 | each level has a position inside the five-entry dropdown list |
| `Kalorilaskuri.When` | app/src/main/java/com/example/kalorilaskuri/MainActivity.kt:151-164 | a `when` over string literals gives None iff no branch literal equals the subject; otherwise it gives the value of a branch whose literal equals the subject, with no matching branch before it |
| `Kalorilaskuri.WhenPicksBranch` | app/src/main/java/com/example/kalorilaskuri/MainActivity.kt:151-164 | a branch whose literal no earlier branch repeats is the one a `when` picks for that literal |
| `Kalorilaskuri.SexTableInverse` | app/src/main/java/com/example/kalorilaskuri/MainActivity.kt:151-155 | the two-branch sex table yields sex s for exactly the literal of s |
| `Kalorilaskuri.ActivityBranchesAreLabels` | app/src/main/java/com/example/kalorilaskuri/MainActivity.kt:157-163 | the branch at each level's dropdown position maps that level's literal to the level, and no earlier branch has the same literal |
| `Kalorilaskuri.ActivityTableInverse` | app/src/main/java/com/example/kalorilaskuri/MainActivity.kt:157-164 | the five-branch activity table yields level a for exactly the literal of a |
| `Kalorilaskuri.ParseSex` | app/src/main/java/com/example/kalorilaskuri/MainActivity.kt:151-155 | parsing gives sex s exactly when the text equals s's literal ("Mies" or "Nainen"); any other text gives None |
| `Kalorilaskuri.ParseActivity` | app/src/main/java/com/example/kalorilaskuri/MainActivity.kt:157-164 | parsing gives level a exactly when the text equals a's literal; any other text gives None |
| `Kalorilaskuri.Factor` | app/src/main/java/com/example/kalorilaskuri/MainActivity.kt:157-163 | every coefficient lies in [1.3, 2.2] |
| `Kalorilaskuri.FactorFollowsDropdownOrder` | app/src/main/java/com/example/kalorilaskuri/MainActivity.kt:157-163 | a level listed earlier in the dropdown has a smaller coefficient, and a smaller coefficient means a level listed earlier |
| `Kalorilaskuri.BaseRate` | app/src/main/java/com/example/kalorilaskuri/MainActivity.kt:152-153 | the basal rate is `88.362 + 13.397·w` for "Mies" and `447.593 + 9.247·w` for "Nainen"; its contract states that it is at least 88.362 for a non-negative weight, and `BaseRateIncreasing` that it grows with the weight |
| `Kalorilaskuri.BaseRateIncreasing` | app/src/main/java/com/example/kalorilaskuri/MainActivity.kt:151-155 | for either sex the basal rate grows with the weight, strictly when the weight strictly grows |
| `Kalorilaskuri.Calories` | app/src/main/java/com/example/kalorilaskuri/MainActivity.kt:166-167 | the estimate is an integer within 1/2 of basal rate times coefficient; at an exact tie it is even |
| `Kalorilaskuri.Estimate` | app/src/main/java/com/example/kalorilaskuri/MainActivity.kt:148-169 | an unparsable weight gives None whatever the other two inputs are; an unknown sex or activity gives None; the result is present iff all three inputs are valid; when present it is the rounded product for the parsed inputs |
| `Kalorilaskuri.EstimateOfLabels` | app/src/main/java/com/example/kalorilaskuri/MainActivity.kt:149-167 | if the weight parses to w, the literals of any sex s and any level a give the rounded estimate for s, w and a |
| `Kalorilaskuri.CaloriesTableMies` | app/src/main/java/com/example/kalorilaskuri/MainActivity.kt:151-167 | for "Mies", each of the five entries is `88.362 + 13.397·w` times the level's coefficient as written, rounded |
| `Kalorilaskuri.CaloriesTableNainen` | app/src/main/java/com/example/kalorilaskuri/MainActivity.kt:151-167 | for "Nainen", each of the five entries is `447.593 + 9.247·w` times the level's coefficient as written, rounded |
| `Kalorilaskuri.CaloriesMonotoneInActivity` | app/src/main/java/com/example/kalorilaskuri/MainActivity.kt:157-167 | with a non-negative basal rate, a level listed later never gives a smaller estimate |
| `Kalorilaskuri.CaloriesMonotoneInWeight` | app/src/main/java/com/example/kalorilaskuri/MainActivity.kt:151-167 | a larger weight never gives a smaller estimate |
| `Kalorilaskuri.SexOptionsAccepted` | app/src/main/java/com/example/kalorilaskuri/MainActivity.kt:151-155 | the sex parser accepts exactly the two radio-button values of lines 90 and 96 |
| `Kalorilaskuri.ActivityOptionsAccepted` | app/src/main/java/com/example/kalorilaskuri/MainActivity.kt:157-164 | every dropdown entry of line 106 is accepted, as the level at its own position |
| `Kalorilaskuri.ActivityOptionsExactly` | app/src/main/java/com/example/kalorilaskuri/MainActivity.kt:157-164 | the activity parser accepts a string iff it is one of the five dropdown entries of line 106 |
| `Kalorilaskuri.UiSelectionsAccepted` | app/src/main/java/com/example/kalorilaskuri/MainActivity.kt:148-164 | for any radio value and any dropdown entry, the result is present iff the weight parses |
| `Kalorilaskuri.DefaultsAccepted` | app/src/main/java/com/example/kalorilaskuri/MainActivity.kt:36-37 | the initial selections "Mies" and "Matala" are the first options, and with them the result is present iff the weight parses |
| `Kalorilaskuri.ScenariosComputed` | app/src/main/java/com/example/kalorilaskuri/MainActivity.kt:148-169 | with a parser that reads "70" and "60" as 70 and 60, ("70", "Mies", "Matala") gives 1334 and ("60", "Nainen", "Korkea") gives 2005 |
| `Kalorilaskuri.ScenariosRejected` | app/src/main/java/com/example/kalorilaskuri/MainActivity.kt:148-169 | an empty weight the parser refuses, the sex "Other" or "Male", or the activity "Unknown" each give None |

The helper lemmas `Kalorilaskuri.SexBranchesAreLabels` and
`Kalorilaskuri.ActivityBranchHoldsLabel` only serve the proofs of the two
table lemmas and have no row.

## Left out

- The Compose UI (`MainActivity.onCreate`, `KalorilaskuriApp`, `PainonSyotto`,
  `SukupuolenValinta`, `FyysinenAktiivisuusDropdown`, `KalorikulutusTulokset`,
  `DefaultPreview`) and its `remember` state: presentation only. Only the
  option literals it sends (lines 36-37, 90, 96, 106) are modelled, as constants.
- The internals of `String.toDoubleOrNull`: library code that is not part of
  this model. `Estimate` takes the parser as a parameter, so what it accepts
  (exponents, surrounding whitespace and so on) is left open.
- IEEE-754 `Double` arithmetic: the model computes on exact reals. It does not
  capture the representation error in 13.397, 1.3 and the other constants, nor
  the rounding errors of the products. For products well below 2^53 the app's
  result may therefore differ by one from the model's, near a half-integer.
  Above 2^53 a `Double` no longer holds every integer, and this precision loss
  is not modelled. Nor is overflow: a finite weight beyond about 1e307 kg, of
  either sign, makes `13.397 * painoKg` (line 152) or the product (line 166)
  overflow to ±Infinity, and the app returns that non-null infinity, while
  `Estimate` returns a finite real.
- `NaN` and the infinities: `toDoubleOrNull` accepts "NaN" and "Infinity", and
  the app then returns a non-null NaN or infinity. A real-valued parser cannot
  produce these values.
- The string formatting of the result for display (line 142).
- Kotlin evaluates the weight, the sex and the activity in that order and stops
  at the first failure. Pure functions have no observable evaluation order. The
  model therefore states only the visible consequence: an unparsable weight
  gives `None` whatever the other inputs are.
