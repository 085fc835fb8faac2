/**
 * The main `while current <= end` loop of both scripts: every date from today to
 * today + N is handled once, in order; a date is skipped, priced and sent, or ends
 * the run when `calculate_price` raises (that call is outside the loop's `try`).
 * Dates are day numbers; the availability answers and the month of each date are
 * inputs.
 */
module Schedule {
  import opened Common
  import opened Calendar
  import opened Pricing
  import opened Occupancy
  import opened Distribution

  /** Which script's loop: they differ in pool, date range, listing order and the order of the skip checks. */
  datatype Variant = Zed | Finikas

  /** `APARTMENTS` of zed_smartpr.py, in priority order. */
  const ZedApartments: seq<int> := [
    1439913, 1439915, 1439917, 1439919, 1439921, 1439923, 1439925, 1439927,
    1439929, 1439931, 1439933, 1439935, 1439937, 1439939, 1439971, 1439973,
    1439975, 1439977, 1439979, 1439981, 1439983, 1439985]

  /** `APARTMENTS` of finikas_smartpr.py. */
  const FinikasApartments: seq<int> := [
    2715198, 2715203, 2715218, 2715223, 2715238,
    2715273, 2715193, 2715208, 2715213, 2715228, 2715233]

  /** How many days after today the loop's `end` lies. */
  function DaysAhead(v: Variant): nat
  {
    match v
    case Zed => 210
    case Finikas => 190
  }

  /**
   * What one run sees from outside: the date and hour of `datetime.now()`, the
   * apartment pool queried, the calendar table, the month of each day number and
   * the availability answer for each date (`None` when the request raised).
   */
  datatype Env = Env(
    today: int,
    hour: Hour,
    apartments: seq<int>,
    calendar: seq<Row>,
    monthOf: int -> Month,
    availability: int -> Option<seq<int>>)

  /** What happened to one date. */
  datatype Outcome =
    | AvailabilityError              // the occupancy lookup raised: date skipped
    | NotPriced                      // calculate_price returned None: date skipped
    | NoneAvailable                  // no listing available: date skipped
    | Sent(subs: seq<Submission>)    // one submission per ordered listing
    | Crashed(error: PricingError)   // calculate_price raised: the run ends here

  datatype Day = Day(date: int, outcome: Outcome)

  /** The listings a date's prices are spread over, in the order they are priced. */
  function Order(v: Variant, apartments: seq<int>, available: seq<int>): seq<int>
  {
    match v
    case Zed => ZedOrder(apartments, available)
    case Finikas => Dedupe(available)
  }

  /** One pass of the loop body for date `d`. */
  function DayOutcome(v: Variant, env: Env, d: int): Outcome
  {
    match env.availability(d)
    case None => AvailabilityError
    case Some(available) =>
      match v
      case Zed =>
        // ratio first (its ZeroDivisionError is caught), then the price, then the empty check
        (match ZedRatio(env.apartments, available)
         case None => AvailabilityError
         case Some(occ) =>
           match CalculatePrice(occ, d, env.today, env.hour, env.monthOf(d), env.calendar)
           case Err(e) => Crashed(e)
           case Ok(q) =>
             if q.NotPriceable? then NotPriced
             else if |available| == 0 then NoneAvailable
             else Sent(Priced(Order(v, env.apartments, available), d, q)))
      case Finikas =>
        // the empty check comes before pricing
        if |available| == 0 then NoneAvailable
        else
          match CalculatePrice(FinikasRatio(env.apartments, available), d, env.today, env.hour,
                               env.monthOf(d), env.calendar)
          case Err(e) => Crashed(e)
          case Ok(q) =>
            if q.NotPriceable? then NotPriced
            else Sent(Priced(Order(v, env.apartments, available), d, q))
  }

  predicate EndsInCrash(log: seq<Day>)
  {
    |log| > 0 && log[|log| - 1].outcome.Crashed?
  }

  /** The outcome of every date, as the loop body computes it. */
  function DayOutcomes(v: Variant, env: Env): int -> Outcome
  {
    d => DayOutcome(v, env, d)
  }

  /** The days handled for dates start .. stop - 1 when date d has outcome `outcome(d)`, stopping after the first crash. */
  function Steps(outcome: int -> Outcome, start: int, stop: int): seq<Day>
    decreases stop - start
  {
    if stop <= start then []
    else
      var before := Steps(outcome, start, stop - 1);
      if EndsInCrash(before) then before else before + [Day(stop - 1, outcome(stop - 1))]
  }

  /** The days a run handles for dates today .. stop - 1. */
  function Schedule(v: Variant, env: Env, stop: int): seq<Day>
  {
    Steps(DayOutcomes(v, env), env.today, stop)
  }

  /** The submissions of one day: those of a sent date, none otherwise. */
  function SentOn(day: Day): seq<Submission>
  {
    if day.outcome.Sent? then day.outcome.subs else []
  }

  /** All submissions made, in the order they were sent. */
  function SentIn(log: seq<Day>): seq<Submission>
  {
    if |log| == 0 then [] else SentOn(log[0]) + SentIn(log[1..])
  }

  /** Once a run has crashed, later dates add nothing. */
  lemma {:induction false} CrashIsFinal(outcome: int -> Outcome, start: int, stop: int, later: int)
    requires stop <= later
    requires EndsInCrash(Steps(outcome, start, stop))
    ensures Steps(outcome, start, later) == Steps(outcome, start, stop)
    decreases later - stop
  {
    if later > stop {
      CrashIsFinal(outcome, start, stop, later - 1);
    }
  }

  /** One more date extends a run that has not crashed by that date's day. */
  lemma StepsStep(outcome: int -> Outcome, start: int, stop: int)
    requires start <= stop && !EndsInCrash(Steps(outcome, start, stop))
    ensures Steps(outcome, start, stop + 1) == Steps(outcome, start, stop) + [Day(stop, outcome(stop))]
  {
  }

  /** Recording one more day appends that day's submissions. */
  lemma {:induction false} SentInStep(log: seq<Day>, day: Day)
    ensures SentIn(log + [day]) == SentIn(log) + SentOn(day)
  {
    if |log| > 0 {
      assert (log + [day])[1..] == log[1..] + [day];
      SentInStep(log[1..], day);
    } else {
      assert SentIn([day]) == SentOn(day) + SentIn([]);
    }
  }

  /** Recording the outcome of the next date keeps the log and the submissions in step with `Steps` and `SentIn`. */
  lemma RecordDay(outcome: int -> Outcome, start: int, current: int, log: seq<Day>, sent: seq<Submission>)
    requires start <= current && log == Steps(outcome, start, current) && !EndsInCrash(log)
    requires sent == SentIn(log)
    ensures log + [Day(current, outcome(current))] == Steps(outcome, start, current + 1)
    ensures sent + SentOn(Day(current, outcome(current))) == SentIn(log + [Day(current, outcome(current))])
    ensures EndsInCrash(log + [Day(current, outcome(current))]) <==> outcome(current).Crashed?
  {
    StepsStep(outcome, start, current);
    SentInStep(log, Day(current, outcome(current)));
  }

  /**
   * The loop body for date `d`, up to the point where the loop advances: the
   * availability lookup, the occupancy ratio, the price, the skip checks in the
   * script's order and the distribution.
   */
  method HandleDate(v: Variant, env: Env, d: int) returns (outcome: Outcome)
    ensures outcome == DayOutcome(v, env, d)
  {
    var response := env.availability(d);
    if response.None? {
      return AvailabilityError;
    }
    var available := response.value;
    var occ: real;
    if v == Zed {
      var ratio := ZedRatio(env.apartments, available);
      if ratio.None? {
        return AvailabilityError;
      }
      occ := ratio.value;
    } else {
      occ := FinikasRatio(env.apartments, available);
      if |available| == 0 {
        return NoneAvailable;
      }
    }
    var quote := CalculatePrice(occ, d, env.today, env.hour, env.monthOf(d), env.calendar);
    if quote.Err? {
      return Crashed(quote.error);
    }
    if quote.value.NotPriceable? {
      return NotPriced;
    }
    if |available| == 0 {
      return NoneAvailable;
    }
    var listings := if v == Zed then ZedOrder(env.apartments, available) else Dedupe(available);
    var subs := Distribute(listings, d, quote.value);
    outcome := Sent(subs);
  }

  /** `days` gives every date the outcome the loop body computes for it. */
  ghost predicate Specifies(days: int -> Outcome, v: Variant, env: Env)
  {
    forall d {:trigger DayOutcome(v, env, d)} :: days(d) == DayOutcome(v, env, d)
  }

  /**
   * One pass of the loop for date `current`: handle it, record its day and send
   * its submissions. `crashed` says the pricing exception left the loop.
   */
  method HandleAndRecord(v: Variant, env: Env, ghost days: int -> Outcome, current: int,
                         log: seq<Day>, sent: seq<Submission>)
    returns (log': seq<Day>, sent': seq<Submission>, crashed: bool)
    requires Specifies(days, v, env)
    requires env.today <= current && log == Steps(days, env.today, current) && !EndsInCrash(log)
    requires sent == SentIn(log)
    ensures log' == Steps(days, env.today, current + 1) && sent' == SentIn(log')
    ensures crashed <==> EndsInCrash(log')
  {
    var outcome := HandleDate(v, env, current);
    assert outcome == days(current);
    RecordDay(days, env.today, current, log, sent);
    log' := log + [Day(current, outcome)];
    sent' := sent + SentOn(Day(current, outcome));
    crashed := outcome.Crashed?;
  }

  /**
   * The `while current <= end` loop, over `days`, a name for `DayOutcomes(v, env)`
   * that keeps the body of `DayOutcome` out of the loop's proof: `log` records each
   * date handled and `sent` every submission made; a crash ends the run after
   * recording the date that raised.
   */
  method RunLoop(v: Variant, env: Env, ghost days: int -> Outcome) returns (log: seq<Day>, sent: seq<Submission>)
    requires Specifies(days, v, env)
    ensures log == Steps(days, env.today, env.today + DaysAhead(v) + 1)
    ensures sent == SentIn(log)
  {
    var end := env.today + DaysAhead(v);
    var current := env.today;
    log, sent := [], [];
    while current <= end
      invariant env.today <= current <= end + 1
      invariant log == Steps(days, env.today, current)
      invariant !EndsInCrash(log)
      invariant sent == SentIn(log)
    {
      var crashed;
      log, sent, crashed := HandleAndRecord(v, env, days, current, log, sent);
      if crashed {
        // the exception leaves the loop
        break;
      }
      current := current + 1;
    }
    if current <= end {
      // left by the exception: no later date is handled
      CrashIsFinal(days, env.today, current + 1, end + 1);
    }
  }

  /** One run of either script: the days it handles and the submissions it makes. */
  method Run(v: Variant, env: Env) returns (log: seq<Day>, sent: seq<Submission>)
    ensures log == Schedule(v, env, env.today + DaysAhead(v) + 1)
    ensures sent == SentIn(log)
  {
    log, sent := RunLoop(v, env, DayOutcomes(v, env));
  }

  // ---------------------------------------------------------------------------
  // Properties of the loop
  // ---------------------------------------------------------------------------

  /**
   * Dates are handled once each, in order, from today on; only the last handled
   * date can have crashed, and without a crash every date before `stop` is handled.
   */
  lemma {:induction false} ScheduleDates(outcome: int -> Outcome, start: int, stop: int)
    ensures var log := Steps(outcome, start, stop);
            && (forall k :: 0 <= k < |log| ==> log[k].date == start + k)
            && (forall k :: 0 <= k < |log| - 1 ==> !log[k].outcome.Crashed?)
            && (stop <= start ==> |log| == 0)
            && (stop > start ==> |log| <= stop - start)
            && (stop > start && !EndsInCrash(log) ==> |log| == stop - start)
    decreases stop - start
  {
    if stop > start {
      ScheduleDates(outcome, start, stop - 1);
    }
  }

  /**
   * A run that does not crash handles exactly the dates today .. today + N, each
   * once and in order (N is 210 for zed_smartpr.py and 190 for finikas_smartpr.py).
   */
  lemma RunCoversRange(v: Variant, env: Env)
    requires !EndsInCrash(Schedule(v, env, env.today + DaysAhead(v) + 1))
    ensures var log := Schedule(v, env, env.today + DaysAhead(v) + 1);
            && |log| == DaysAhead(v) + 1
            && (forall k :: 0 <= k < |log| ==> log[k].date == env.today + k && !log[k].outcome.Crashed?)
  {
    ScheduleDates(DayOutcomes(v, env), env.today, env.today + DaysAhead(v) + 1);
  }

  /**
   * A date whose prices are sent had a non-empty availability answer and sends
   * one submission per ordered listing, for that date, in listing order.
   */
  lemma SentDayShape(v: Variant, env: Env, d: int)
    requires DayOutcome(v, env, d).Sent?
    ensures env.availability(d).Some? && |env.availability(d).value| > 0
    ensures var listings := Order(v, env.apartments, env.availability(d).value);
            var subs := DayOutcome(v, env, d).subs;
            && |subs| == |listings|
            && forall k :: 0 <= k < |subs| ==> subs[k].listing == listings[k] && subs[k].date == d
  {
  }

  /** finikas_smartpr.py checks for an empty availability answer before pricing, so such a date never raises. */
  lemma FinikasEmptySkippedBeforePricing(env: Env, d: int)
    requires env.availability(d) == Some([])
    ensures DayOutcome(Finikas, env, d) == NoneAvailable
  {
  }

  /**
   * zed_smartpr.py prices before it checks for an empty availability answer: a
   * same-day date at hour 23 raises even when nothing is available, where
   * finikas_smartpr.py skips it.
   */
  lemma ZedPricesBeforeEmptyCheck(env: Env)
    requires env.hour == 23 && |env.apartments| > 0
    requires env.availability(env.today) == Some([])
    requires FirstMatch(env.calendar, Date, env.today).Some?
    ensures DayOutcome(Zed, env, env.today) == Crashed(ZeroHoursLeft)
    ensures DayOutcome(Finikas, env, env.today) == NoneAvailable
  {
    var occ := ZedRatio(env.apartments, []).value;
    RaisesExactly(occ, env.today, env.today, env.hour, env.monthOf(env.today), env.calendar);
  }

  /** During hour 23, today's date raises the division by zero once it reaches pricing. */
  lemma LateFirstDateRaises(v: Variant, env: Env)
    requires env.hour == 23
    requires FirstMatch(env.calendar, Date, env.today).Some?
    requires env.availability(env.today).Some?
    requires v == Zed ==> |env.apartments| > 0
    requires v == Finikas ==> |env.availability(env.today).value| > 0
    ensures DayOutcome(v, env, env.today) == Crashed(ZeroHoursLeft)
  {
    var available := env.availability(env.today).value;
    var occ := if v == Zed then ZedRatio(env.apartments, available).value else FinikasRatio(env.apartments, available);
    RaisesExactly(occ, env.today, env.today, env.hour, env.monthOf(env.today), env.calendar);
  }

  /**
   * A run started during hour 23 whose first date reaches pricing ends on that
   * date with the division by zero: nothing is sent for any date.
   */
  lemma LateRunEndsOnFirstDate(v: Variant, env: Env)
    requires env.hour == 23
    requires FirstMatch(env.calendar, Date, env.today).Some?
    requires env.availability(env.today).Some?
    requires v == Zed ==> |env.apartments| > 0
    requires v == Finikas ==> |env.availability(env.today).value| > 0
    ensures Schedule(v, env, env.today + DaysAhead(v) + 1) == [Day(env.today, Crashed(ZeroHoursLeft))]
    ensures SentIn(Schedule(v, env, env.today + DaysAhead(v) + 1)) == []
  {
    var days := DayOutcomes(v, env);
    LateFirstDateRaises(v, env);
    assert Steps(days, env.today, env.today + 1) == [Day(env.today, days(env.today))];
    CrashIsFinal(days, env.today, env.today + 1, env.today + DaysAhead(v) + 1);
    assert SentIn([Day(env.today, Crashed(ZeroHoursLeft))]) == SentIn([]) + [];
  }

  /**
   * The scripts' own pools are non-empty: with them zed's unguarded ratio never
   * raises, and finikas's guard never applies.
   */
  lemma ScriptPoolsNonEmpty(available: seq<int>)
    ensures ZedRatio(ZedApartments, available).Some?
    ensures ZedRatio(FinikasApartments, available).Some?
    ensures FinikasRatio(FinikasApartments, available) == ZedRatio(FinikasApartments, available).value
  {
  }
}
