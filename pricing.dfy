/**
 * The pricing rule `calculate_price`, identical in zed_smartpr.py and
 * finikas_smartpr.py: a base nightly price and a composite score for one target
 * date, from the current occupancy, the lead time and a calendar row.
 */
module Pricing {
  import opened Common
  import opened Calendar

  /** Dates further ahead than this many days are not priced. */
  const Horizon: int := 365
  /** Beyond this many days ahead the long-term flat markup applies. */
  const LongTermBoundary: int := 240
  /** The markup over the target price in the long-term regime. */
  const LongTermPremium: real := 20.0
  /** The long-term boundary used in the same-day pace ratio, counted in hours. */
  const SameDayBoundary: int := 263

  type Hour = h: int | 0 <= h <= 23
  type Month = m: int | 1 <= m <= 12 witness 1

  /** `MIN_PRICE_SAME_DAY_BY_MONTH`, January first. */
  const SameDayFloors: seq<real> :=
    [50.0, 50.0, 55.0, 60.0, 70.0, 80.0, 80.0, 80.0, 80.0, 70.0, 50.0, 50.0]

  function SameDayFloor(m: Month): real
  {
    SameDayFloors[m - 1]
  }

  /**
   * The four-tuple `calculate_price` returns: all `None` (not priceable), a price
   * with three `None`s (long-term flat price), or the price, the score `x` and the
   * min and max prices the ladder is spread between. Prices are unrounded.
   */
  datatype Quote =
    | NotPriceable
    | Flat(price: real)
    | Scored(price: real, score: real, minPrice: real, maxPrice: real)

  /** The exceptions that escape `calculate_price`. */
  datatype PricingError =
    | ZeroHoursLeft   // same-day at hour 23: division by `hours_left == 0`
    | MissingPlanRow  // no row whose days_diff / hours_diff equals the lead: `.values[0]` on an empty column

  /** The lead in the unit of its pacing curve: hours left today when same-day, days otherwise. */
  function LeadUnit(lead: int, hour: Hour): int
  {
    if lead == 0 then 23 - hour else lead
  }

  /** The pacing-curve column the lead unit is compared with. */
  function UnitColumn(lead: int): Column
  {
    if lead == 0 then HoursDiff else DaysDiff
  }

  /** The long-term boundary in the lead unit. */
  function UnitBoundary(lead: int): int
  {
    if lead == 0 then SameDayBoundary else LongTermBoundary
  }

  /** The lead (in the lead unit) at which the historical plan reached occupancy `occ`. */
  function PlanLead(cal: seq<Row>, occ: real, lead: int): int
    requires |cal| > 0
  {
    Key(cal[Closest(cal, occ)], UnitColumn(lead))
  }

  /**
   * `occupancy_ratio`: the larger of current and planned occupancy over the
   * smaller; a plan of 0 divides by 1 instead.
   */
  function OccupancyFactor(occ: real, plan: real): (r: real)
    ensures occ > 0.0 && plan > 0.0 ==> r >= 1.0
    ensures occ > 0.0 && plan == 0.0 ==> r == occ
    ensures occ > 0.0 && plan >= 0.0 ==> r > 0.0
  {
    var denom := if plan != 0.0 then Min(occ, plan) else 1.0;
    if denom != 0.0 then
      if occ > 0.0 && plan > 0.0 then
        QuotientAtLeastOne(Max(occ, plan), denom);
        Max(occ, plan) / denom
      else Max(occ, plan) / denom
    else 1.0
  }

  lemma QuotientAtLeastOne(a: real, b: real)
    requires 0.0 < b <= a
    ensures a / b >= 1.0
  {
    assert (a / b) * b == a;
  }

  /** The pace ratio `(unit - planLead) / unit`, weighted by the occupancy factor. */
  function PacedScore(unit: int, planLead: int, factor: real): real
    requires unit != 0
  {
    (unit - planLead) as real / unit as real * factor
  }

  /** The composite score `x` for a near-term lead, or the exception computing it raises. */
  function Score(occ: real, lead: int, hour: Hour, cal: seq<Row>): Result<real, PricingError>
    requires 0 <= lead <= LongTermBoundary && |cal| > 0
  {
    var unit := LeadUnit(lead, hour);
    if unit == 0 then Err(ZeroHoursLeft)
    else if occ == 0.0 then Ok((unit - UnitBoundary(lead)) as real / unit as real)
    else
      match FirstMatch(cal, UnitColumn(lead), unit)
      case None => Err(MissingPlanRow)
      case Some(j) => Ok(PacedScore(unit, PlanLead(cal, occ, lead), OccupancyFactor(occ, cal[j].sumOccupancyDaysAhead)))
  }

  /** The unclamped blend: from `target` toward `maxP` for a non-negative score, toward `minP` for a negative one. */
  function Blend(x: real, minP: real, target: real, maxP: real): (r: real)
    ensures x == 0.0 ==> r == target
  {
    if x >= 0.0 then x * (maxP - target) + target else x * (target - minP) + target
  }

  /**
   * Blend from `target` toward `maxP` for a non-negative score and toward `minP`
   * for a negative one, then clamp into [minP, maxP].
   */
  function Interpolate(x: real, minP: real, target: real, maxP: real): (r: real)
    ensures minP <= maxP ==> minP <= r <= maxP
    ensures r == minP || r == maxP || minP <= r <= maxP
  {
    Max(minP, Min(Blend(x, minP, target, maxP), maxP))
  }

  /**
   * `calculate_price(current_occ, target_date, current_datetime)` with the date as
   * a day number `target`, the run's date `today` and hour `hour`, and `month` the
   * calendar month of `target`.
   */
  function CalculatePrice(occ: real, target: int, today: int, hour: Hour, month: Month, cal: seq<Row>)
    : (r: Result<Quote, PricingError>)
    ensures r.Ok? && r.value.Scored? && r.value.minPrice <= r.value.maxPrice ==>
              r.value.minPrice <= r.value.price <= r.value.maxPrice
    ensures r.Ok? && r.value.Scored? ==> 0 <= target - today <= LongTermBoundary
    ensures r.Ok? && r.value.Flat? ==> LongTermBoundary < target - today <= Horizon
  {
    var lead := target - today;
    if lead < 0 || lead > Horizon then Ok(NotPriceable)
    else
      match FirstMatch(cal, Date, target)
      case None => Ok(NotPriceable)
      case Some(i) =>
        var row := cal[i];
        var minP := if lead == 0 then SameDayFloor(month) else row.minPrice;
        if lead > LongTermBoundary then Ok(Flat(row.targetPrice + LongTermPremium))
        else
          match Score(occ, lead, hour, cal)
          case Err(e) => Err(e)
          case Ok(x) => Ok(Scored(Interpolate(x, minP, row.targetPrice, row.maxPrice), x, minP, row.maxPrice))
  }

  // ---------------------------------------------------------------------------
  // Properties of the interpolation
  // ---------------------------------------------------------------------------

  /** Scaling by a non-negative weight keeps the order of two scores. */
  lemma ScaleMonotone(x1: real, x2: real, w: real)
    requires x1 <= x2 && w >= 0.0
    ensures x1 * w <= x2 * w
  {
    assert x2 * w - x1 * w == (x2 - x1) * w;
  }

  /** With target between the bounds, the unclamped blend sits on the side of target that the score's sign picks. */
  lemma BlendSide(x: real, minP: real, target: real, maxP: real)
    requires minP <= target <= maxP
    ensures x >= 0.0 ==> Blend(x, minP, target, maxP) >= target
    ensures x < 0.0 ==> Blend(x, minP, target, maxP) <= target
  {
    if x >= 0.0 {
      ScaleMonotone(0.0, x, maxP - target);
      assert 0.0 * (maxP - target) == 0.0;
    } else {
      ScaleMonotone(x, 0.0, target - minP);
      assert 0.0 * (target - minP) == 0.0;
    }
  }

  /** With target between the bounds, the unclamped blend grows with the score. */
  lemma BlendMonotone(x1: real, x2: real, minP: real, target: real, maxP: real)
    requires minP <= target <= maxP
    requires x1 <= x2
    ensures Blend(x1, minP, target, maxP) <= Blend(x2, minP, target, maxP)
  {
    if x1 >= 0.0 {
      ScaleMonotone(x1, x2, maxP - target);
      assert Blend(x1, minP, target, maxP) == x1 * (maxP - target) + target;
      assert Blend(x2, minP, target, maxP) == x2 * (maxP - target) + target;
    } else if x2 < 0.0 {
      ScaleMonotone(x1, x2, target - minP);
      assert Blend(x1, minP, target, maxP) == x1 * (target - minP) + target;
      assert Blend(x2, minP, target, maxP) == x2 * (target - minP) + target;
    } else {
      BlendSide(x1, minP, target, maxP);
      BlendSide(x2, minP, target, maxP);
    }
  }

  /** With a well-ordered row, a non-negative score never prices below target and a negative one never above. */
  lemma InterpolateSide(x: real, minP: real, target: real, maxP: real)
    requires minP <= target <= maxP
    ensures x >= 0.0 ==> Interpolate(x, minP, target, maxP) >= target
    ensures x < 0.0 ==> Interpolate(x, minP, target, maxP) <= target
    ensures x == 0.0 ==> Interpolate(x, minP, target, maxP) == target
  {
    BlendSide(x, minP, target, maxP);
  }

  /** With a well-ordered row, a higher score never gives a lower price. */
  lemma InterpolateMonotone(x1: real, x2: real, minP: real, target: real, maxP: real)
    requires minP <= target <= maxP
    requires x1 <= x2
    ensures Interpolate(x1, minP, target, maxP) <= Interpolate(x2, minP, target, maxP)
  {
    BlendMonotone(x1, x2, minP, target, maxP);
  }

  // ---------------------------------------------------------------------------
  // Properties of calculate_price
  // ---------------------------------------------------------------------------

  /** All four results are `None` exactly when the lead is outside 0..365 or the date has no row. */
  lemma NotPriceableExactly(occ: real, target: int, today: int, hour: Hour, month: Month, cal: seq<Row>)
    ensures CalculatePrice(occ, target, today, hour, month, cal) == Ok(NotPriceable) <==>
              (target - today < 0 || target - today > Horizon || FirstMatch(cal, Date, target).None?)
  {
  }

  /** Beyond 240 days the price is the row's target plus 20, not capped by its max price. */
  lemma LongTermFlatPrice(occ: real, target: int, today: int, hour: Hour, month: Month, cal: seq<Row>, i: nat)
    requires LongTermBoundary < target - today <= Horizon
    requires FirstMatch(cal, Date, target) == Some(i)
    ensures CalculatePrice(occ, target, today, hour, month, cal) == Ok(Flat(cal[i].targetPrice + LongTermPremium))
  {
  }

  /** Beyond 240 days neither the occupancy nor the hour of the run changes the quote. */
  lemma LongTermIgnoresOccupancy(occ1: real, occ2: real, target: int, today: int, hour1: Hour, hour2: Hour,
                                 month: Month, cal: seq<Row>)
    requires target - today > LongTermBoundary
    ensures CalculatePrice(occ1, target, today, hour1, month, cal) == CalculatePrice(occ2, target, today, hour2, month, cal)
  {
  }

  /**
   * A scored quote carries the row's max price, and as min price the month's
   * same-day floor when the lead is 0 and the row's own min price otherwise.
   */
  lemma ScoredBounds(occ: real, target: int, today: int, hour: Hour, month: Month, cal: seq<Row>, i: nat)
    requires FirstMatch(cal, Date, target) == Some(i)
    requires CalculatePrice(occ, target, today, hour, month, cal).Ok?
    requires CalculatePrice(occ, target, today, hour, month, cal).value.Scored?
    ensures var q := CalculatePrice(occ, target, today, hour, month, cal).value;
            && q.minPrice == (if target == today then SameDayFloor(month) else cal[i].minPrice)
            && q.maxPrice == cal[i].maxPrice
            && q.price == Interpolate(q.score, q.minPrice, cal[i].targetPrice, cal[i].maxPrice)
            && Score(occ, target - today, hour, cal) == Ok(q.score)
  {
  }

  /**
   * `calculate_price` raises exactly for a near-term priceable date whose lead unit
   * is 0 (same-day at hour 23), or, with non-zero occupancy, whose lead unit has no
   * row on the pacing curve; at hour 23 it is the division by zero that is raised.
   */
  lemma RaisesExactly(occ: real, target: int, today: int, hour: Hour, month: Month, cal: seq<Row>)
    ensures var lead := target - today;
            CalculatePrice(occ, target, today, hour, month, cal).Err? <==>
              && 0 <= lead <= LongTermBoundary
              && FirstMatch(cal, Date, target).Some?
              && (LeadUnit(lead, hour) == 0 ||
                  (occ != 0.0 && FirstMatch(cal, UnitColumn(lead), LeadUnit(lead, hour)).None?))
    ensures target == today && hour == 23 && FirstMatch(cal, Date, target).Some? ==>
              CalculatePrice(occ, target, today, hour, month, cal) == Err(ZeroHoursLeft)
  {
  }

  /**
   * With no occupancy and a lead of 1..240 days the score is (lead - 240) / lead,
   * never positive, so the price is at most the target, and exactly the target at 240.
   */
  lemma ZeroOccupancyFuture(target: int, today: int, hour: Hour, month: Month, cal: seq<Row>, i: nat)
    requires 1 <= target - today <= LongTermBoundary
    requires FirstMatch(cal, Date, target) == Some(i)
    requires cal[i].minPrice <= cal[i].targetPrice <= cal[i].maxPrice
    ensures var lead := target - today;
            var r := CalculatePrice(0.0, target, today, hour, month, cal);
            && r.Ok? && r.value.Scored?
            && r.value.score == (lead - LongTermBoundary) as real / lead as real
            && r.value.score <= 0.0
            && r.value.price <= cal[i].targetPrice
            && (lead == LongTermBoundary ==> r.value.price == cal[i].targetPrice)
  {
    var lead := target - today;
    var x := (lead - LongTermBoundary) as real / lead as real;
    assert x * lead as real == (lead - LongTermBoundary) as real;
    assert x <= 0.0;
    InterpolateSide(x, cal[i].minPrice, cal[i].targetPrice, cal[i].maxPrice);
  }

  /**
   * Same-day with no occupancy before 23:00: the score is (h - 263) / h for the
   * h = 23 - hour hours left, always negative, and the floor is the month's.
   */
  lemma ZeroOccupancySameDay(today: int, hour: Hour, month: Month, cal: seq<Row>, i: nat)
    requires hour < 23
    requires FirstMatch(cal, Date, today) == Some(i)
    ensures var h := 23 - hour;
            var r := CalculatePrice(0.0, today, today, hour, month, cal);
            && r.Ok? && r.value.Scored?
            && r.value.score == (h - SameDayBoundary) as real / h as real
            && r.value.score < 0.0
            && r.value.minPrice == SameDayFloor(month)
  {
    var h := 23 - hour;
    var x := (h - SameDayBoundary) as real / h as real;
    assert x * h as real == (h - SameDayBoundary) as real;
  }

  /** A positively weighted pace ratio has the sign of `unit - planLead`. */
  lemma PacedScoreSign(unit: int, planLead: int, factor: real)
    requires unit > 0 && factor > 0.0
    ensures var x := PacedScore(unit, planLead, factor);
            && (x > 0.0 <==> unit - planLead > 0)
            && (x == 0.0 <==> unit - planLead == 0)
            && (x < 0.0 <==> unit - planLead < 0)
  {
    var pace := (unit - planLead) as real / unit as real;
    assert pace * unit as real == (unit - planLead) as real;
    if pace > 0.0 {
      assert pace * factor > 0.0;
    } else if pace < 0.0 {
      assert pace * factor < 0.0;
    }
  }

  /** The occupancy factor against a non-negative planned occupancy is positive. */
  lemma PlanFactorPositive(occ: real, cal: seq<Row>, j: nat)
    requires occ > 0.0 && j < |cal|
    requires forall k :: 0 <= k < |cal| ==> cal[k].sumOccupancyDaysAhead >= 0.0
    ensures OccupancyFactor(occ, cal[j].sumOccupancyDaysAhead) > 0.0
  {
    assert cal[j].sumOccupancyDaysAhead >= 0.0;
  }

  /**
   * With positive occupancy and a plan of non-negative occupancies, the score has
   * the sign of the lead unit minus the plan lead of the closest-occupancy row:
   * positive when bookings run ahead of the plan, negative when behind.
   */
  lemma ScoreSign(occ: real, lead: int, hour: Hour, cal: seq<Row>)
    requires 0 <= lead <= LongTermBoundary && |cal| > 0
    requires occ > 0.0
    requires forall j :: 0 <= j < |cal| ==> cal[j].sumOccupancyDaysAhead >= 0.0
    requires Score(occ, lead, hour, cal).Ok?
    ensures var x := Score(occ, lead, hour, cal).value;
            var d := LeadUnit(lead, hour) - PlanLead(cal, occ, lead);
            && (x > 0.0 <==> d > 0)
            && (x == 0.0 <==> d == 0)
            && (x < 0.0 <==> d < 0)
  {
    var unit := LeadUnit(lead, hour);
    var j := FirstMatch(cal, UnitColumn(lead), unit).value;
    PlanFactorPositive(occ, cal, j);
    PacedScoreSign(unit, PlanLead(cal, occ, lead), OccupancyFactor(occ, cal[j].sumOccupancyDaysAhead));
  }

  /** A worked example: min 50, target 90, max 150, no occupancy, 100 days ahead: price 50. */
  lemma ExampleLead100(today: int, hour: Hour, month: Month)
    ensures var cal := [Row(today + 100, 50.0, 90.0, 150.0, 0.0, 100, 0)];
            CalculatePrice(0.0, today + 100, today, hour, month, cal) == Ok(Scored(50.0, -1.4, 50.0, 150.0))
  {
    var cal := [Row(today + 100, 50.0, 90.0, 150.0, 0.0, 100, 0)];
    assert FirstMatch(cal, Date, today + 100) == Some(0);
    assert (100 - LongTermBoundary) as real / 100 as real == -1.4;
  }
}
