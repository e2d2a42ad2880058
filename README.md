# Break-room survey scoring, modelled in Dafny

This project models the `Answer` class of `main.rb`. The class scores one
employee's survey answer against a company's policy:

- Four yes/no questions: does the employee enjoy the job, feel respected by
  managers, find the workplace good for carers, and do unpaid extra work?
  For the last question "no" is the good answer.
- Overtime: hours actually worked minus contracted hours, at most
  `max_overtime` (8 by default).
- Pay: the hourly rate must be at least `min_wage` (6.0 by default).

For the four questions, an answer that is `nil` or `"unsure"` skips its
criterion; any other answer adds one valid point, and scores one point when
it equals the positive response. The hours criterion is skipped when either
hours value is `nil` or `"unsure"`; otherwise it adds a valid point, and
scores when the overtime is within the maximum. The rate is never skipped on
a freshly built object (see below): it always adds a valid point, and scores
when it is at least the minimum wage.
`calculate_score` returns the score, the valid points and the percentage.

Files:

- `values.dfy` (module `Values`) holds the decoded answer values: Ruby's
  `nil`, a string, or a number. Numbers are exact reals. It also holds the
  shared skip test for `nil` / `"unsure"`.
- `rate.dfy` (module `HourlyRate`) holds `parse_hourly_rate` as a pure
  function. It removes every pound sign, then reads the leading plain
  decimal the way `String#to_f` does: leading whitespace, an optional sign,
  digits, and an optional fraction. When neither a digit nor a point
  followed by a digit comes after the whitespace and the sign, the string
  reads as 0.
- `criteria.dfy` (module `Criteria`) gives each criterion as a pure
  function returning a `Tally`. A tally is what the criterion adds to the
  score and to the valid points. `Evaluate` is all six criteria in their
  fixed order. `Percentage` is the percentage, including Ruby's NaN and
  infinity when there are no valid points.
- `answer.dfy` (module `Survey`) holds the `Answer` class. It has the seven
  answer fields, the two counters `score` and `validPoints`, and the two
  policy constants. Each `check_*` is a method that changes only the two
  counters. Its contract states exactly how much each counter grows, in
  terms of the criterion functions. `Runner` builds an `Answer` and scores
  it once, as `runner` does.

Consequences the model makes explicit:

- After construction the hourly rate is always a number. So the
  `nil`/`"unsure"` guard of `check_rate` (main.rb:64) never fires on a
  freshly built object. The wage criterion always counts, and a fresh
  object never yields NaN or infinity.
- A rate answered `"unsure"` is therefore read as 0.0. It counts as a
  failed wage criterion; it is not skipped.
- All pound signs are removed, wherever they are in the string, not only a
  leading one.
- The counters are reset only by the constructor. Scoring the same object
  twice doubles both counters, while the percentage stays the same.

## Model

| member | source | states |
|---|---|---|
| Values.Unknown | main.rb:49 | the skip test: a value is unknown when it is nil or the string "unsure" |
| Values.NearMissesAreKnown | main.rb:49 | the spellings "Unsure", "UNSURE", " unsure", "" and "nil" and the number 0 are not skipped |
| Survey.Answer.constructor | main.rb:6-26 | answer fields stored as given; the rate stored as the number `parse_hourly_rate` yields; counters start at 0; the policy defaults are 8 and 6.0; a nil rate is a precondition, because Ruby raises there |
| Survey.Answer.CheckBooleanResponse | main.rb:48-53 | only the two counters change; each grows by exactly the tally of `BooleanCheck` for the value and the positive response, which defaults to "yes" |
| Survey.Answer.CheckHours | main.rb:55-61 | only the two counters change; each grows by exactly the tally of `HoursCheck` for the current hours and `maxOvertime`; requires the subtraction to be defined |
| Survey.Answer.CheckRate | main.rb:63-68 | only the two counters change; each grows by exactly the tally of `RateCheck` for the current rate and `minWage`; requires the comparison to be defined |
| Survey.Answer.CalculateScore | main.rb:28-37 | the counters grow by `Evaluate` of the current answers (the six checks in order, "no" positive for unpaid extra work); the counters are returned with `Percentage` of them; the answer fields are unchanged |
| Criteria.BooleanCheck | main.rb:48-53 | a boolean criterion adds at most one valid point, and scores only when it counts |
| Criteria.HoursCheck | main.rb:55-61 | the hours criterion adds at most one valid point, and scores only when it counts |
| Criteria.RateCheck | main.rb:63-68 | the wage criterion adds at most one valid point, and scores only when it counts |
| Criteria.Evaluate | main.rb:28-34 | the six criteria together give 0 <= score <= valid points <= 6 |
| Criteria.Percentage | main.rb:36 | with valid points, an exact value whose product with the valid points is 100 times the score, and between 0 and 100 when the score is; without valid points, NaN exactly when the score is 0, otherwise an infinity signed like the score |
| Criteria.BooleanCountsIffKnown | main.rb:49-51 | a boolean answer adds a valid point if and only if it is neither nil nor "unsure" |
| Criteria.BooleanScoresIffPositive | main.rb:52 | a boolean answer scores if and only if it equals the positive response, and that response is not "unsure" |
| Criteria.HoursScoresIffWithinLimit | main.rb:59-60 | the hours score if and only if both are numbers and worked minus contracted is at most the maximum overtime |
| Criteria.RateScoresIffAtLeastMinimum | main.rb:67 | the rate scores if and only if it is a number at least the minimum wage |
| Criteria.OtherAnswersCountWithoutScoring | main.rb:49-52 | any other known answer, such as "Yes" or "maybe", adds a valid point and no score |
| Criteria.EnjoysJobAdds | main.rb:29 | for any record and policy, the enjoyment answer adds exactly its own "yes"-positive tally to what the record gives with that answer missing |
| Criteria.RespectedByManagersAdds | main.rb:30 | for any record and policy, the respect answer adds exactly its own "yes"-positive tally to what the record gives with that answer missing |
| Criteria.GoodForCarersAdds | main.rb:31 | for any record and policy, the carers answer adds exactly its own "yes"-positive tally to what the record gives with that answer missing |
| Criteria.UnpaidExtraWorkAdds | main.rb:32 | for any record and policy, the unpaid-extra-work answer adds exactly its own "no"-positive tally to what the record gives with that answer missing |
| Criteria.EnjoysJobPolarity | main.rb:29 | in any record, "yes" for enjoyment adds a score and a valid point; "no" adds only a valid point |
| Criteria.RespectedByManagersPolarity | main.rb:30 | in any record, "yes" for respect adds a score and a valid point; "no" adds only a valid point |
| Criteria.GoodForCarersPolarity | main.rb:31 | in any record, "yes" for carers adds a score and a valid point; "no" adds only a valid point |
| Criteria.UnpaidExtraWorkPolarity | main.rb:32 | in any record, "no" for unpaid extra work adds a score and a valid point; "yes" adds only a valid point: the reverse of the other three questions |
| Criteria.HoursCountIffKnown | main.rb:56-58 | the hours add a valid point if and only if both hours values are known |
| Criteria.HoursBoundary | main.rb:59-60 | overtime equal to the maximum scores; any overtime above it counts without scoring |
| Criteria.NegativeOvertimePasses | main.rb:59-60 | working fewer hours than contracted scores under any non-negative maximum |
| Criteria.RateCountsIffKnown | main.rb:64-66 | the rate adds a valid point if and only if it is neither nil nor "unsure" |
| Criteria.RateBoundary | main.rb:67 | a rate equal to the minimum wage scores; any rate below it counts without scoring |
| Criteria.NothingEvaluableIffAllUnknown | main.rb:28-34 | the six checks add no valid point if and only if every criterion lacks its data |
| Criteria.NumericRateAlwaysCounts | main.rb:63-68 | a numeric rate always adds a valid point, so a record with one has at least one valid point |
| Criteria.PercentageScaleFree | main.rb:36 | doubling score and valid points leaves the percentage unchanged, for every score and every count of valid points, the NaN and infinity cases included |
| HourlyRate.StripPound | main.rb:45 | no pound sign is left after `gsub('£', '')` |
| HourlyRate.SkipSpace | main.rb:45 | `to_f` skips exactly the leading whitespace: what remains is a suffix, everything dropped is whitespace, and what remains does not start with whitespace |
| HourlyRate.DigitRun | main.rb:45 | the digit run `to_f` reads is the longest all-digit prefix |
| HourlyRate.DigitsValue | main.rb:45 | the integer part read from n digits is below 10^n |
| HourlyRate.Fraction | main.rb:45 | the fraction read after the point lies in [0, 1) |
| HourlyRate.FractionDigits | main.rb:45 | the fraction part `to_f` reads consists of digits only |
| HourlyRate.Unsigned | main.rb:45 | `to_f` skips at most one leading character, and does so exactly when it is a minus or plus sign |
| HourlyRate.Magnitude | main.rb:45 | an unsigned number read by `to_f` is never negative, and is 0 when the string starts with neither a digit nor a point followed by a digit |
| HourlyRate.LeadingDecimal | main.rb:45 | `to_f` reads 0 when no digit, or point followed by a digit, comes after the whitespace and the sign; without a minus sign the result is never negative |
| HourlyRate.ParseHourlyRate | main.rb:42-46 | a numeric rate is returned unchanged; a nil rate is a precondition, because `nil.gsub` raises |
| HourlyRate.StripPoundConcat | main.rb:45 | removing pound signs distributes over concatenation |
| HourlyRate.StripPoundNoPound | main.rb:45 | a string without pound signs is left as it is |
| HourlyRate.StripPoundKeepsOthers | main.rb:45 | every other character survives, as often as it occurs |
| HourlyRate.StripPoundIdempotent | main.rb:45 | removing the pound signs twice is the same as removing them once |
| HourlyRate.PoundSignAnywhereIgnored | main.rb:45 | a pound sign anywhere in the rate string, not only in front, does not change the parsed rate |
| HourlyRate.NoDigitReadsZero | main.rb:45 | a string with no digit at all reads as 0 |
| HourlyRate.LetterFirstReadsZero | main.rb:45 | a string whose first character is a letter reads as 0, whatever digits follow |
| HourlyRate.DigitRunOfDigits | main.rb:45 | the number `to_f` reads stops exactly where the digits stop |
| HourlyRate.DigitChar | main.rb:45 | the digit character for k is a digit worth k |
| HourlyRate.RenderNat | main.rb:45 | the decimal rendering of a natural number is a non-empty digit string |
| HourlyRate.RenderNatValue | main.rb:45 | reading back the decimal rendering of n gives n |
| HourlyRate.ReadPlainDecimal | main.rb:45 | `<digits>.<digits>` reads as its integer part plus its fraction |
| HourlyRate.DigitFirstIsUnsigned | main.rb:45 | a string starting with a digit is read with no whitespace or sign skipped |
| HourlyRate.PlainDecimalMagnitude | main.rb:45 | the unsigned number `<digits>.<digits>` is its integer part plus its fraction, even with no integer digits |
| HourlyRate.PriceRoundTrip | main.rb:42-46 | every price written as `£<pounds>.<pence>` parses to exactly pounds + pence/100 |
| HourlyRate.PenceFraction | main.rb:45 | two digits of pence after the point read as pence/100 |
| HourlyRate.SampleRate | main.rb:42-46 | "£8.22" parses to 8.22 |
| HourlyRate.SamplePoundStripped | main.rb:45 | "£8.22" loses only its pound sign |
| HourlyRate.SampleDecimal | main.rb:45 | "8.22" reads as 8.22 |
| HourlyRate.SamplePence | main.rb:45 | the digits "22" after the point read as 0.22 |
| HourlyRate.UnsureRateReadsZero | main.rb:42-46 | the rate "unsure" parses to 0.0 |
| Survey.Normalised | main.rb:17 | after construction the rate is numeric, so the wage comparison is defined; every other field is as given |
| Survey.Runner | main.rb:71-73 | building and scoring once yields the `Evaluate` tally of the normalised answers; 0 <= score <= valid points <= 6; at least one valid point; an exact percentage equal to `Percentage` of the counters |
| Survey.ScoreTwice | main.rb:20-37 | a second `calculate_score` on the same object returns doubled counters and the same percentage |
| Survey.SampleNormalised | main.rb:77-87 | the sample answers normalise to the same answers with the rate 8.22 |
| Survey.SampleTally | main.rb:77-89 | the normalised sample scores 3 with 5 valid points under the default policy |
| Survey.SampleScores | main.rb:77-89 | the sample as decoded scores 3 with 5 valid points under the default policy |
| Survey.SampleRun | main.rb:71-89 | running the sample with the default policy gives score 3, 5 valid points and exactly 60 percent |
| Survey.UnsureRateCountsAsFailedWage | main.rb:63-68 | a rate answered "unsure" is not skipped; it counts and fails any positive minimum wage |

## Left out

- The command-line block (main.rb:92-116): the argument check, `File.exist?`, `File.read`, `JSON.parse` and the exit codes. This is I/O and process control. The model starts from the decoded answer fields.
- The `print` in `runner` and `percentage.round(2)` (main.rb:74). These are output formatting and float rounding.
- IEEE floating point: `to_f`, the float division in the percentage, and integer-versus-float distinctions. The model uses exact reals throughout. The percentage's NaN and infinities are kept as cases of `Percent`.
- HourlyRate.ParseHourlyRate: reads only a plain decimal after the pound signs go: whitespace, sign, digits, and a fraction. Ruby's `to_f` also accepts exponents and digit-separating underscores; those inputs are not modelled.
- Ruby keyword-argument mechanics (main.rb:6-8). The `ArgumentError` for a missing key is not modelled: every field is a required named formal. Extra keys such as `age` and `submitted_date` are not modelled, because `**_extras` drops them unread.
- Inputs that make Ruby raise become preconditions, not modelled errors:
  - a nil hourly rate (`NoMethodError` at main.rb:45);
  - hours whose subtraction fails, such as an hours string other than "unsure" (main.rb:59);
  - a stored rate that cannot be compared with the minimum wage, after a caller reassigns it through its accessor (main.rb:67).
- JSON values other than nil, strings and numbers, such as booleans, arrays and objects. They are outside `Value`.
- The reader and writer methods of `attr_accessor` (main.rb:2-4). The corresponding fields are public in the class. `validPoints` has no accessor in main.rb, yet it is a public field of the class as well, so the model lets callers reassign it where Ruby does not.
- `max_overtime` and `min_wage` typed as reals (`Policy`). In main.rb they come from the JSON as given (main.rb:72), so a string or `null` is possible there; such a value makes Ruby raise at the comparison (main.rb:60 or main.rb:67) once that line is reached. The model does not represent such a policy.
- The `private` section (main.rb:40). `parse_hourly_rate` and the three `check_*` methods are public in the model, so a caller may run one check on its own; Ruby allows that only from inside the class.
