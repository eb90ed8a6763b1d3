# bono-pad eligibility core, modelled in Dafny

bono-pad checks whether a surgery case qualifies for a PAD bundle. It reads the
patient's administrative and clinical intake data and evaluates it against a fixed
rule set per surgery. The result is CUMPLE (meets the criteria), REVISION (needs manual
review) or NO_CUMPLE (rejected), with one reason per check that fired. It also summarises
the history of decided cases, and cleans, prints and validates Chilean RUT numbers.

The model covers four pieces.

- **Evaluator** (`evaluate.dfy`, `evaluate_properties.dfy`). `Evaluate.EvaluateCase` is a
  method, like `evaluateCase`. It accumulates a reasons list and a status through the
  administrative checks, the clinical bounds, and loops over the forbidden flags,
  exclusions and review rules. Each group of checks is a stage method. The method is
  proved equal to `Decide`. `Decide` is defined from the ordered list of checks that fire
  (`Findings`). `EvaluateProperties` then states what the decision means, using predicates
  written directly over the rule set and the payload (`HardCheckFires`, `SoftCheckFires`).
  The operator table `OPS` is a closed datatype `Op`, looked up by its symbol. The
  clinical field is the enumeration `Field` (`imc`, `edad`). The reasons are the
  program's own Spanish strings (`Message`); the sentinel is "Cumple criterios del MVP".
- **Catalogue and label resolution** (`pad_rules.dfy`, `catalogue_examples.dfy`,
  `intake.dfy`). These hold the three rule sets of `padRules` and `mapCirugiaKey`, and
  the submit step of the intake form. An unrecognised surgery gives REVISION with
  "Falta selección de cirugía". Worked examples on the catalogue are proved in
  `catalogue_examples.dfy`.
- **Indicators** (`cases.dfy`). `kpis` over a sequence of case records: percentages by
  status, the share of automatic decisions, and the median validation time.
- **RUT helpers** (`rut.dfy`). `cleanRut` as a function. `formatRut` and `validateRut`
  are methods, proved against `Formatted` and `Valid`. Their loops are the separate
  methods `InsertDots` and `SumDigits`.

Numbers: ages and body-mass indices are held as whole counts of tenths. For example, 18
years is 180 and an index of 40 is 400. The intake form rounds the index to one
decimal, and ages are integers. Messages print these values the way JavaScript prints
the number, so 400 prints as "40" and 355 as "35.5". Days and timestamps are plain
integers. A timestamp of 0 stands for a missing one.

## Model

| member | source | states |
|---|---|---|
| Evaluate.LookupOp | bono-pad/src/utils/evaluate.js:2-9 | a name yields the operator whose symbol it is; a name that is none of the six symbols yields nothing (inherited object members are not modelled, see below) |
| Evaluate.LookupSymbol | bono-pad/src/utils/evaluate.js:2-9 | each of the six operators is found under its own symbol, so together with `LookupOp` the table maps the six symbols one to one onto the six operators |
| Evaluate.Apply | bono-pad/src/utils/evaluate.js:3-8 | the six comparisons on numbers, `==` and `!=` strict; which one a symbol selects is `LookupOp` with `LookupSymbol` |
| Evaluate.FieldValue | bono-pad/src/utils/evaluate.js:57 | `payload.clinico[rule.field]` for the two fields a review rule can name, `imc` and `edad`; what a firing rule then does is `ReviewFindingsFire` and `CheckReviewIf` |
| Evaluate.ReviewFires | bono-pad/src/utils/evaluate.js:58 | a rule fires when its operator is one of the six and the comparison of the field with the value holds; `ReviewFindingsFire` proves a review reason appears exactly when some rule fires, and `UnknownOperatorNeverFires` that an unknown operator never does |
| Evaluate.MostSevere | bono-pad/src/utils/evaluate.js:16-62 | the combined status is one of the two and at least as severe as both, in the order CUMPLE < REVISION < NO_CUMPLE |
| Evaluate.Severity | bono-pad/src/utils/evaluate.js:16-62 | every check that fires moves the status away from CUMPLE |
| Evaluate.Message | bono-pad/src/utils/evaluate.js:17-59 | the nine reason templates of lines 17, 21, 25, 29, 35, 39, 44, 50 and 59; that none is the sentinel is `MessageIsNotSentinel`, and exact strings are `CatalogueExamples.MaximumMessage`, `ReviewMessage` and `TierMessage` |
| Evaluate.MessageIsNotSentinel | bono-pad/src/utils/evaluate.js:17-59 | no check's reason string equals the sentinel reason |
| Evaluate.Record | bono-pad/src/utils/evaluate.js:16-62 | recording one more fired check appends exactly its message and raises the status to the more severe of the two |
| Evaluate.Fire | bono-pad/src/utils/evaluate.js:17-60 | pushing a fired check's reason and updating the status (lines 17-18, 21-22, 25-26, 29-30, 35-36, 39-40, 44-45, 50-51, 59-60) records exactly that check, and the reasons and status stay the messages and the most severe status of the checks fired so far |
| Evaluate.CheckAdmin | bono-pad/src/utils/evaluate.js:16-31 | the tier, provider, PAD code and order-age checks append their reasons in that order and keep the status equal to the most severe so far |
| Evaluate.CheckBounds | bono-pad/src/utils/evaluate.js:34-41 | the age and body-mass-index checks append their reasons and update the status likewise |
| Evaluate.CheckProhibidos | bono-pad/src/utils/evaluate.js:42-47 | one reason per forbidden flag configured true and present, in key order, each rejecting |
| Evaluate.CheckExclusiones | bono-pad/src/utils/evaluate.js:48-53 | one reason per exclusion of the rule present in the patient's list, in the rule's order |
| Evaluate.CheckReviewIf | bono-pad/src/utils/evaluate.js:56-62 | one reason per review rule that fires, in list order |
| Evaluate.EvaluateCase | bono-pad/src/utils/evaluate.js:11-66 | the decision returned is the decision the ordered checks determine, with the sentinel added only when nothing fired |
| EvaluateProperties.WorstIsMostSevere | bono-pad/src/utils/evaluate.js:16-62 | the accumulated status is NO_CUMPLE if a rejecting check fired, else REVISION if any fired, else CUMPLE |
| EvaluateProperties.FlagFindingsFire | bono-pad/src/utils/evaluate.js:42-47 | a forbidden-flag reason appears exactly when some flag is configured true and present, and all of them reject |
| EvaluateProperties.ExclusionFindingsFire | bono-pad/src/utils/evaluate.js:48-53 | an exclusion reason appears exactly when the rule and the patient share an exclusion, and all of them reject |
| EvaluateProperties.ReviewFindingsFire | bono-pad/src/utils/evaluate.js:56-62 | a review reason appears exactly when some review rule fires |
| EvaluateProperties.ReviewFindingsNeverReject | bono-pad/src/utils/evaluate.js:60 | review rules never reject |
| EvaluateProperties.AdminMatchesChecks | bono-pad/src/utils/evaluate.js:16-31 | the administrative stage rejects exactly on a forbidden tier or an expired order, and fires exactly when one of its four checks holds |
| EvaluateProperties.BoundsMatchChecks | bono-pad/src/utils/evaluate.js:34-41 | the bounds stage rejects exactly on age below the minimum, and fires exactly when age or index is out of bounds |
| EvaluateProperties.HardFindingsMatchChecks | bono-pad/src/utils/evaluate.js:16-53 | a rejecting check fires exactly when tier, order age, age, a forbidden flag or an exclusion rejects the case |
| EvaluateProperties.FindingsMatchChecks | bono-pad/src/utils/evaluate.js:16-62 | some reason is produced exactly when a rejecting or a review check holds |
| EvaluateProperties.StatusIsMostSevere | bono-pad/src/utils/evaluate.js:16-62 | the status is NO_CUMPLE exactly when a rejecting check holds, REVISION when only review checks hold, CUMPLE otherwise |
| EvaluateProperties.SentinelExactlyWhenNothingFires | bono-pad/src/utils/evaluate.js:64 | the decision is CUMPLE with the sentinel alone exactly when no check holds |
| EvaluateProperties.ReasonsNeverEmpty | bono-pad/src/utils/evaluate.js:12-65 | the reasons list always has at least one entry |
| EvaluateProperties.CumpleIffSentinel | bono-pad/src/utils/evaluate.js:13-64 | the status is CUMPLE exactly when the reasons are the sentinel alone |
| EvaluateProperties.ReasonsFollowRunOrder | bono-pad/src/utils/evaluate.js:16-62 | there is one reason per fired check, and the i-th reason is the message of the i-th fired check in run order |
| EvaluateProperties.CodigoPadIgnoredWhenListEmpty | bono-pad/src/utils/evaluate.js:24 | with no PAD codes configured, changing the patient's PAD code changes nothing |
| EvaluateProperties.UnknownOperatorNeverFires | bono-pad/src/utils/evaluate.js:58 | adding a review rule whose operator is none of the six symbols leaves the decision unchanged (inherited object members are not modelled, see below) |
| Text.TenthsToString | bono-pad/src/utils/evaluate.js:35-59 | how `String(number)` prints a threshold held in tenths: a minus sign exactly for a negative value, and a decimal point exactly when the value is not a whole number |
| Text.Lower | bono-pad/src/rules/padRules.js:37 | the lowered label has the same length and each character lowered on its own, A to Z becoming a to z (non-ASCII letters, see below) |
| Text.Contains | bono-pad/src/rules/padRules.js:38-40 | `includes` holds exactly when the pattern occurs at some position of the text |
| PadRules.MapCirugiaKey | bono-pad/src/rules/padRules.js:36-42 | every key it returns is a key of the catalogue |
| PadRules.CatalogueContents | bono-pad/src/rules/padRules.js:2-33 | `Catalogue` (with `Colecistectomia`, `HerniaInguinal`, `Histerectomia`) has exactly the three surgery keys, each with its own PAD code, upper body-mass bound (40, 42, 38), exclusions and review rules (imc > 35 and edad > 70; imc > 37; edad > 65); what they share is `CatalogueWellFormed` |
| PadRules.ResolutionOrder | bono-pad/src/rules/padRules.js:38-41 | "colecist" wins over "hernia", which wins over "hister"; a label mentioning none resolves to nothing, and only such a label does |
| PadRules.EmptyLabelResolvesToNothing | bono-pad/src/rules/padRules.js:37 | a missing or empty label resolves to nothing |
| PadRules.ResolutionIgnoresCase | bono-pad/src/rules/padRules.js:37 | a label and its lower-cased form resolve alike |
| PadRules.ColecistectomiaLabelResolves | bono-pad/src/rules/padRules.js:38 | "Colecistectomía" resolves to COLECISTECTOMIA |
| PadRules.HerniaLabelResolves | bono-pad/src/rules/padRules.js:39 | "Hernia inguinal" resolves to HERNIA_INGUINAL |
| PadRules.HisterectomiaLabelResolves | bono-pad/src/rules/padRules.js:40 | "Histerectomía" resolves to HISTERECTOMIA |
| PadRules.CatalogueWellFormed | bono-pad/src/rules/padRules.js:2-33 | every rule set allows tiers B, C and D only, has 30 days of order validity, a contracted provider, minimum age 18, a non-empty code list, the three forbidden flags, and only `>` review rules |
| CatalogueExamples.CompliantCaseMeetsCriteria | bono-pad/src/rules/padRules.js:3-12 | a compliant cholecystectomy case gives CUMPLE with the sentinel alone |
| CatalogueExamples.HighBodyMassIndexAsksForReview | bono-pad/src/utils/evaluate.js:38-41 | index 41 under the cholecystectomy rules gives REVISION with "IMC > 40" and then "Criterio de revisión: imc > 35" |
| CatalogueExamples.PregnancyIsRejected | bono-pad/src/utils/evaluate.js:42-47 | under a catalogue-shaped rule set, a pregnancy rejects the case whatever else it says |
| CatalogueExamples.TierAAndPregnancyRejected | bono-pad/src/utils/evaluate.js:16-19 | tier A with a pregnancy is rejected with at least two reasons, "Tramo A no permitido" first |
| CatalogueExamples.CatalogueRejectsPregnancy | bono-pad/src/rules/padRules.js:8 | the two results above hold for every rule set of the catalogue |
| Intake.Outcome | bono-pad/src/App.js:153-154 | the recorded decision always carries a reason |
| Intake.Submit | bono-pad/src/App.js:132-154 | an unresolved label gives REVISION with "Falta selección de cirugía"; otherwise the decision is the evaluator's on the matched rule set |
| Intake.OutcomeCumpleIffSentinel | bono-pad/src/App.js:153-154 | for every recorded decision, CUMPLE goes with the sentinel alone and only with it |
| Intake.OutcomeIgnoresCase | bono-pad/src/App.js:132 | the letter case of the surgery label does not change the decision |
| Cases.Count | bono-pad/src/store/cases.js:16 | a filtered count is at most the number of cases |
| Cases.CountPermutation | bono-pad/src/store/cases.js:16 | a count does not depend on the order of the history |
| Cases.Pct | bono-pad/src/store/cases.js:17 | 0 for no cases, otherwise the nearest integer to 100x/n with halves rounded up, and within [0, 100] when x is at most n |
| Cases.Durations | bono-pad/src/store/cases.js:18 | there is one duration per case with both timestamps |
| Cases.DurationsPermutation | bono-pad/src/store/cases.js:18 | reordering the history only reorders the durations |
| Cases.SortAsc | bono-pad/src/store/cases.js:19 | the durations come out ascending, and they are the same durations |
| Cases.SortedUnique | bono-pad/src/store/cases.js:19 | there is only one ascending arrangement of given durations |
| Cases.Median | bono-pad/src/store/cases.js:19 | 0 when no case has both timestamps, otherwise one of the durations; that it is the element at position floor(m/2) of the ascending order is `MedianIsUpperMedian` |
| Cases.MedianIsUpperMedian | bono-pad/src/store/cases.js:19 | the median is one of the durations; at most half lie below it and more than half lie at or below it |
| Cases.MedianPermutation | bono-pad/src/store/cases.js:18-19 | the median does not depend on the order of the durations |
| Cases.ComputeKpis | bono-pad/src/store/cases.js:14-29 | the total is the number of cases and every percentage lies in [0, 100] |
| Cases.EmptyHistory | bono-pad/src/store/cases.js:15-19 | an empty history gives total 0, all percentages 0 and median 0 |
| Cases.KpisPermutationInvariant | bono-pad/src/store/cases.js:15-20 | permuting the history leaves every indicator unchanged |
| Cases.IsAutomatic | bono-pad/src/store/cases.js:20 | a case is automatic when its reasons are the sentinel alone; `AutomaticIsCumple` proves the automatic share then equals the CUMPLE share |
| Cases.AutomaticIsCumple | bono-pad/src/store/cases.js:20 | when every record pairs CUMPLE with the sentinel, the automatic share equals the CUMPLE share |
| Cases.FourCaseHistory | bono-pad/src/store/cases.js:20-26 | two automatic CUMPLE cases, one NO_CUMPLE and one REVISION give 50, 50, 25 and 25 |
| Rut.Clean | bono-pad/src/utils/rut.js:3 | only digits and K remain, and nothing is added |
| Rut.CleanRut | bono-pad/src/utils/rut.js:2-4 | a missing value cleans to the empty string, and the result holds only digits and K |
| Rut.CleanIdempotent | bono-pad/src/utils/rut.js:3 | cleaning twice is cleaning once |
| Rut.CleanIgnoresCase | bono-pad/src/utils/rut.js:3 | a trailing k cleans like a trailing K |
| Rut.FormatRut | bono-pad/src/utils/rut.js:6-19 | the printed form is the grouped body, a dash and the check character; a single character is printed as is; nothing prints as "" |
| Rut.InsertDots | bono-pad/src/utils/rut.js:12-16 | the loop's output is the reversed body with a dot after every third character except the last |
| Rut.GroupingLoopIsGrouped | bono-pad/src/utils/rut.js:11-17 | reversing, inserting a dot after every third character but the last, and reversing back groups the body in threes from the right |
| Rut.GroupedLayout | bono-pad/src/utils/rut.js:13-16 | counting from the right, every fourth character of the grouped body is a dot and no other is, and there is no leading dot |
| Rut.GroupedCleansToBody | bono-pad/src/utils/rut.js:13-17 | grouping only inserts dots |
| Rut.FormatRoundTrip | bono-pad/src/utils/rut.js:6-19 | cleaning the printed form gives back the cleaned RUT |
| Rut.FormatRutCleansBack | bono-pad/src/utils/rut.js:6-19 | `cleanRut(formatRut(x)) == cleanRut(x)`, and formatting twice equals formatting once |
| Rut.FormattedShape | bono-pad/src/utils/rut.js:8-18 | the printed form is empty exactly when the cleaned RUT is, a single character prints unchanged, and a longer one has a dash before its last character |
| Rut.FormatExample | bono-pad/src/App.js:309 | "123456785" prints as "12.345.678-5" |
| Rut.ValidateRut | bono-pad/src/utils/rut.js:21-36 | the answer is whether the last character equals the check string computed from the body |
| Rut.SumDigits | bono-pad/src/utils/rut.js:27-32 | the loop sums each digit times its weight, cycling 2 to 7 from the right, and flags a non-digit as NaN |
| Rut.CheckString | bono-pad/src/utils/rut.js:34 | for every result 1 to 11 the check string has exactly one character, a digit or K (11 written 0, 10 written K) |
| Rut.CheckChar | bono-pad/src/utils/rut.js:33-34 | the check character is a digit or K, and the check string the validator computes for a body of digits is exactly that one character |
| Rut.ValidIffCheckChar | bono-pad/src/utils/rut.js:27-35 | a RUT is valid exactly when its body is all digits and its last character is 11 minus the weighted sum modulo 11, weights 2 to 7 from the right, with 11 as 0 and 10 as K |
| Rut.KInBodyIsInvalid | bono-pad/src/utils/rut.js:30 | a K anywhere in the body makes the RUT invalid |
| Rut.ShortIsInvalid | bono-pad/src/utils/rut.js:23 | fewer than two significant characters are never valid |
| Rut.ValidationIgnoresFormatting | bono-pad/src/utils/rut.js:22 | the printed form validates like the original, and a lower-case k check character like an upper-case one |
| Rut.ExampleIsValid | bono-pad/src/App.js:309 | "12.345.678-5" is valid |

## Left out

- `getAllCases`, `saveCase` and `clearCases` (bono-pad/src/store/cases.js:4-12) read and write browser storage. The history is a parameter of `kpis`.
- The intake form's field validation (`validar`), rendering, and the Dashboard and DecisionCard components are user-interface code.
- `calcDiasDesde`, the record's id and its timestamps come from the clock and `crypto`. `diasOrden` and the timestamps are inputs.
- The body-mass-index computation (bono-pad/src/App.js:64-68) is floating-point division plus `toFixed(1)`. The index is an input, in tenths. A missing index becomes 0, as the caller makes it.
- An age that `parseInt` turns into NaN is not representable, because ages are integers.
- Review rules on fields other than `imc` and `edad` are not representable. In the source the field is read from `payload.clinico`. A boolean or list field (`embarazo`, `comorbilidadDescompensada`, `alergiaAnestesiaSevera`, `exclusiones`) is compared as that value, so for example `{field: "embarazo", op: "==", value: true}` fires for a pregnant patient. Any other name reads as undefined, and every comparison on it is false except `!=`, which is true.
- Evaluate.LookupOp: treats every name outside the six own keys of `OPS` as unknown. In the source `OPS[name]` also finds members inherited from `Object.prototype`. `toString`, `toLocaleString`, `valueOf` and `constructor` return a truthy value, so such a rule fires and moves CUMPLE to REVISION. `__proto__`, `__defineGetter__` and `__defineSetter__` make `evaluateCase` throw a TypeError. The catalogue uses only `>`.
- EvaluateProperties.UnknownOperatorNeverFires: holds for names outside the six own keys of `OPS` as the model reads them. It does not cover the inherited `Object.prototype` names above, which in the source fire or throw.
- Forbidden-flag keys other than the three clinical flags are not representable. Their order is the key order of the object literal.
- A missing `codigoPad`, `exclusiones` or `reviewIf` list is modelled as the empty list. The source treats these the same way.
- Timestamps are integers, and 0 is the only missing value. JavaScript also treats null, undefined and NaN as false.
- Cases.Pct: computes the exact rounding of 100x/n with halves up. JavaScript computes `(x/n)*100` in floating point, which can land just below a .5 boundary; that error is not captured.
- Text.Lower: lower-cases ASCII letters only. JavaScript's `toLowerCase` also maps non-ASCII capitals, but the three roots matched are ASCII.
- Cases.SortAsc: the source sorts a fresh local array in place with `Array.prototype.sort`; the model sorts a sequence with a functional insertion sort. The result is the same ascending sequence.
- Evaluate.EvaluateCase: the single function body of the source is split into one stage method per group of checks. The status and reasons are threaded through the stages in the source's order.
