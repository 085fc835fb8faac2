# Smart pricing for short-term-rental listings: a Dafny model

Two near-identical scripts, `zed_smartpr.py` and `finikas_smartpr.py`, price a pool of
rental apartments day by day. For each date from today to today + 210 days (zed) or
today + 190 days (finikas), a script does four things:

- It asks the booking backend which apartments are still available.
- It derives an occupancy ratio from the answer.
- It computes a base price and a composite score `x` from a calendar of reference
  prices and historical pacing (`calculate_price`).
- It spreads the base price over the available apartments as a non-decreasing ladder
  and sends one nightly rate per apartment.

This project models that logic on exact reals and day numbers:

- `Common`: Option/Result, Python's `min`/`max`/`abs`, duplicate-freeness and subsequence.
- `Calendar`: the reference table as a sequence of rows. It also holds the two lookups
  `calculate_price` makes: the first row whose column equals a value, and the first row
  with the closest planned occupancy (`idxmin`).
- `Pricing`: one `CalculatePrice` shared by both scripts (their `calculate_price` bodies
  are the same), with its lemmas.
- `Occupancy`: the ratio `(n - |available|) / n`. zed has no guard and raises on an
  empty pool. finikas guards it to 0.
- `Distribution`: the listing order and the step ladder. zed filters its priority list
  `APARTMENTS`. finikas dedupes the availability answer in first-occurrence order.
- `Schedule`: the main `while current <= end` loop as a method over a record of its
  inputs. Availability answers and the month of each day are inputs. A date is skipped,
  priced and sent, or ends the run.

Differences between the two scripts, as modelled:

- The empty-pool guard: `Occupancy.ZedRatio` vs `Occupancy.FinikasRatio`. zed's
  ZeroDivisionError is raised inside the loop's `try`, so that date is skipped as an
  availability error.
- The listing order: `Distribution.ZedOrder` vs `Distribution.Dedupe`.
- The order of the skip checks. zed prices first and checks for "no available
  apartment" second. finikas does the reverse.
- The date key of the calendar lookup. zed compares its datetime column with a
  `"%m/%d/%Y"` string; finikas compares dates. Both are modelled as equality of day
  numbers.

Behaviour of the code worth noting, all of it modelled as written:

- The long-term price `target + 20` is not capped at the max price.
- Same-day at hour 23 leaves `hours_left == 0` and divides by zero. Nothing clamps it.
- A missing pacing-curve row for the lead raises an IndexError, which nothing inside
  `calculate_price` catches.
- The occupancy factor is not capped.
- Neither script wraps its requests in a retry loop.

`calculate_price` is called outside the loop's `try`. An exception it raises therefore
ends the whole run, and `Schedule.Outcome.Crashed` models exactly that.

## Model

| member | source | states |
|---|---|---|
| Calendar.FirstMatch | finikas_smartpr.py:72-76 | the first row whose column equals the value, with no earlier match; None exactly when no row matches |
| Calendar.Closest | zed_smartpr.py:117-120 | `idxmin` of `abs(sum_occupancy_days_ahead - occ)`: a row of minimal distance over the whole table, every earlier row strictly farther |
| Pricing.OccupancyFactor | finikas_smartpr.py:120-122 | with positive occupancy: at least 1 when the plan occupancy is positive, equal to the occupancy when the plan is 0, positive when the plan is non-negative |
| Pricing.Interpolate | zed_smartpr.py:128-133 | the clamped price lies in [min, max] whenever min <= max |
| Pricing.BlendSide | zed_smartpr.py:128-131 | for min <= target <= max, the unclamped blend is at or above target for x >= 0 and at or below it for x < 0 |
| Pricing.BlendMonotone | zed_smartpr.py:128-131 | for min <= target <= max, the unclamped blend never decreases as the score grows |
| Pricing.InterpolateSide | finikas_smartpr.py:128-133 | for min <= target <= max: x >= 0 prices at or above target, x < 0 at or below, x = 0 exactly at target |
| Pricing.InterpolateMonotone | zed_smartpr.py:128-133 | for min <= target <= max: a higher score never gives a lower price |
| Pricing.CalculatePrice | zed_smartpr.py:67-134 | a scored quote lies within its [min, max] when min <= max; scored only for leads 0..240, flat only for leads 241..365 |
| Pricing.NotPriceableExactly | zed_smartpr.py:69-76 | all-None exactly when the lead is < 0 or > 365, or no row has the target date |
| Pricing.LongTermFlatPrice | zed_smartpr.py:85-87 | beyond 240 days the quote is target + 20 with no score, min or max, and no cap |
| Pricing.LongTermIgnoresOccupancy | finikas_smartpr.py:83-85 | beyond 240 days neither occupancy nor hour changes the result |
| Pricing.ScoredBounds | zed_smartpr.py:78-133 | a scored quote's min is the month's same-day floor at lead 0 and the row's min otherwise; its max is the row's max; its price interpolates its score, and its score is the one the composite-score step computes |
| Pricing.RaisesExactly | zed_smartpr.py:92-126 | an exception escapes exactly for a priceable near-term date whose lead unit is 0, or that has non-zero occupancy and no plan row at the lead unit; at hour 23 same-day it is the division by zero |
| Pricing.ZeroOccupancyFuture | zed_smartpr.py:112-133 | occupancy 0 and lead 1..240: score (lead - 240) / lead <= 0, price <= target, and = target at lead 240 |
| Pricing.ZeroOccupancySameDay | finikas_smartpr.py:90-95 | occupancy 0 same-day before 23:00: score (h - 263) / h < 0 for h = 23 - hour, and the month's floor is the min |
| Pricing.PacedScoreSign | zed_smartpr.py:121-126 | with a positive lead unit and a positive occupancy factor, the weighted pace ratio is positive, zero or negative exactly as the lead unit minus the plan lead is |
| Pricing.PlanFactorPositive | finikas_smartpr.py:119-122 | with positive occupancy and non-negative plan occupancies, the occupancy factor of any row is positive |
| Pricing.ScoreSign | zed_smartpr.py:117-126 | with positive occupancy and non-negative plan occupancies, the score's sign is the sign of the lead unit minus the closest row's plan lead |
| Pricing.ExampleLead100 | zed_smartpr.py:112-133 | min 50, target 90, max 150, occupancy 0, lead 100: score -1.4, price 50 |
| Occupancy.ZedRatio | zed_smartpr.py:62-64 | raises exactly for an empty pool; otherwise in [0, 1] when at most n are available, 0 iff all are available, 1 iff none is |
| Occupancy.FinikasRatio | finikas_smartpr.py:59-61 | 0 for an empty pool, zed's ratio otherwise, within [0, 1] when at most n are available |
| Distribution.ZedOrder | zed_smartpr.py:192 | each priority id kept with its multiplicity iff it is available; the ids present are exactly those both in the priority list and available; a subsequence of the priority list |
| Distribution.Dedupe | finikas_smartpr.py:188 | no duplicates, and exactly the ids of the availability answer |
| Distribution.DedupeFirstOccurrence | finikas_smartpr.py:188 | the deduplicated ids come in the order of their first occurrence in the answer |
| Distribution.LadderPrice | zed_smartpr.py:204-207 | no listing is priced above the max price |
| Distribution.Distribute | finikas_smartpr.py:189-199 | one submission per listing in listing order: the flat price for a long-term quote, `min(price + k * step, max)` for the listing at 0-based position k otherwise |
| Distribution.LadderUncapped | zed_smartpr.py:204-207 | with base <= max, the cap never bites: listing k gets exactly base + k * step |
| Distribution.LadderNonDecreasing | finikas_smartpr.py:194-197 | with base <= max, the first listing gets the base and the ladder never goes down |
| Distribution.LadderAboveCap | zed_smartpr.py:204-207 | with base > max, every listing gets the max |
| Distribution.PricedLadder | zed_smartpr.py:198-209 | long-term: every listing gets the base; otherwise every price is <= max, and with base <= max the first is the base and the ladder is non-decreasing |
| Schedule.HandleDate | finikas_smartpr.py:166-199 | one pass of the loop body, making the script's checks in its own order, yields `DayOutcome` for that date |
| Schedule.HandleAndRecord | zed_smartpr.py:166-212 | one pass of the loop extends the log by exactly the next date's day and the submissions by that day's, and reports a crash exactly when that day crashed |
| Schedule.RunLoop | zed_smartpr.py:166-212 | the loop's log is the specified schedule from today to the end date, stopping after the first crash, and its submissions are those of the sent days in order |
| Schedule.Run | zed_smartpr.py:161-212 | the handled days are the schedule from today to today + N, stopping after a crash; the submissions sent are those of the days that were sent |
| Schedule.CrashIsFinal | zed_smartpr.py:176-180 | after an exception escapes pricing, later dates add nothing |
| Schedule.ScheduleDates | finikas_smartpr.py:160-202 | dates are handled once each, in order from today; only the last can have crashed; without a crash every date up to the end is handled |
| Schedule.RunCoversRange | zed_smartpr.py:162-166 | a run without a crash handles exactly N + 1 dates, today + k at position k |
| Schedule.SentDayShape | zed_smartpr.py:187-209 | a sent date had a non-empty availability answer and sends one submission per ordered listing, in order, for that date |
| Schedule.FinikasEmptySkippedBeforePricing | finikas_smartpr.py:175-178 | finikas skips a date with no available apartment before pricing it |
| Schedule.ZedPricesBeforeEmptyCheck | zed_smartpr.py:176-190 | zed prices before its empty check, so a same-day date at hour 23 with nothing available raises where finikas skips it |
| Schedule.LateFirstDateRaises | zed_smartpr.py:92-97 | during hour 23, today's date raises the division by zero once it reaches pricing, for either script |
| Schedule.ScriptPoolsNonEmpty | zed_smartpr.py:21-25 | with the scripts' own apartment lists, zed's unguarded ratio never raises and finikas's ratio equals zed's |
| Schedule.LateRunEndsOnFirstDate | zed_smartpr.py:92-97 | a run during hour 23 whose first date reaches pricing ends on that date, having sent nothing |

## Left out

- The HTTP requests (`requests.post` for availability and for rates), their headers,
  payloads and `raise_for_status`. An availability answer is an input; `None` stands
  for a request that raised. A rate submission is recorded as a `Submission` value.
- A retry, timeout or backoff wrapper. The scripts make one request per call and catch
  an availability failure once per date. A rate submission that raises is not caught.
  The model records submissions as values, so that exception is not modelled.
- Configuration and ingestion: environment variables, `pd.read_excel` and date
  coercion. The calendar is a given sequence of rows.
- NaN cells, which pandas `idxmin` skips and `int()` rejects, are not modelled.
- zed's comparison of its datetime column with a formatted date string is modelled as
  date equality.
- Dates and clocks: `datetime.now()`, `strftime` and departure dates. Dates are day
  numbers. The hour is an input in 0..23, and the month of each day is an input.
- CalculatePrice: returns unrounded prices and scores. The scripts round the price to
  2 decimals and the score to 4. Bounds and ordering are stated on the exact reals.
- Distribute: ladder prices are not rounded to 1 decimal. Because of this, the model
  does not capture a rounded ladder price ending up slightly above a max price that has
  more than one decimal.
- Distribute: spreads the unrounded base price, where the scripts spread the price
  already rounded to 2 decimals.
- Printing, logging and the `TEST_MODE` switch are not modelled.
- The loop takes its apartment pool as an input instead of the scripts' constant lists
  (`Schedule.ZedApartments`, `Schedule.FinikasApartments`), so the empty-pool guard
  stays reachable. `Schedule.ScriptPoolsNonEmpty` states what the constant lists
  guarantee.
