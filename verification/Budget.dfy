/** Standings against a budget, and the local midnight a budget's period begins at. */
module Budget {
  import opened Shared

  datatype Period = Day | Month

  datatype Budget = Budget(limitUsd: real, warnAtUsd: Option<real>, period: Period)

  datatype Standing = Within | Warn | Over

  function BudgetStanding(budget: Option<Budget>, spentUsd: real): Standing {
    if budget.None? then Within
    else if spentUsd >= budget.value.limitUsd then Over
    else if budget.value.warnAtUsd.Some? && budget.value.warnAtUsd.value <= budget.value.limitUsd then
      if spentUsd >= budget.value.warnAtUsd.value then Warn else Within
    else Within
  }

  predicate Reached(threshold: real, spentUsd: real) { spentUsd >= threshold }

  /**
   * Spending exactly the limit exceeds it. A warning above the limit could never have fired, so passing over it
   * changes no standing.
   */
  lemma StandingIsByThresholds(budget: Budget, spentUsd: real)
    ensures var standing := BudgetStanding(Some(budget), spentUsd);
      && (standing.Over? <==> Reached(budget.limitUsd, spentUsd))
      && (standing.Warn? <==>
           budget.warnAtUsd.Some? && Reached(budget.warnAtUsd.value, spentUsd) && !Reached(budget.limitUsd, spentUsd))
  {
  }

  function Rank(s: Standing): nat {
    match s case Within => 0 case Warn => 1 case Over => 2
  }

  lemma SpendingMoreNeverHelps(budget: Option<Budget>, less: real, more: real)
    requires less <= more
    ensures Rank(BudgetStanding(budget, less)) <= Rank(BudgetStanding(budget, more))
  {
  }

  // ---- The office's own midnight -------------------------------------------------

  /** How far ahead of UTC a zone's clocks are at each instant; both in milliseconds. */
  type Zone = int -> int

  const SECOND := 1_000
  const DAY := 86_400_000

  /** Offsets are whole seconds and less than a day. */
  ghost predicate Sane(zone: Zone) {
    forall t :: -DAY < zone(t) < DAY && zone(t) % SECOND == 0
  }

  /** What the clocks of a zone show at `t`, to the second, as the instant UTC clocks show it. */
  function AsUtcMillis(zone: Zone, t: int): int {
    (t + zone(t)) / SECOND * SECOND
  }

  /** The date the clocks of a zone show at `t`. */
  function LocalDay(zone: Zone, t: int): (day: int)
    ensures day * DAY <= t + zone(t) < day * DAY + DAY
  {
    (t + zone(t)) / DAY
  }

  function Corrected(zone: Zone, guess: int, instant: int): int {
    guess + (instant - AsUtcMillis(zone, instant))
  }

  /** The UTC guess corrected by the zone's offset, twice. */
  function TwoPass(zone: Zone, guess: int): int {
    Corrected(zone, guess, Corrected(zone, guess, guess))
  }

  method InstantOf(zone: Zone, guess: int) returns (instant: int)
    ensures instant == TwoPass(zone, guess)
  {
    instant := guess;
    for pass := 0 to 2
      invariant pass == 0 ==> instant == guess
      invariant pass == 1 ==> instant == Corrected(zone, guess, guess)
      invariant pass == 2 ==> instant == TwoPass(zone, guess)
    {
      instant := guess + (instant - AsUtcMillis(zone, instant));
    }
  }

  /** At `t` the clocks of the zone show exactly the midnight that UTC has at `guess`. */
  predicate IsMidnight(zone: Zone, guess: int, t: int) {
    t + zone(t) == guess
  }

  /**
   * Around `guess` the offset changes at most once, at `change` and from `before` to `after`, by
   * no more than a day.
   */
  ghost predicate OneChange(zone: Zone, guess: int, change: int, before: int, after: int) {
    && Sane(zone) && guess % SECOND == 0
    && -DAY < before < DAY && -DAY < after < DAY && -DAY <= after - before <= DAY
    && forall t :: guess - 2 * DAY <= t <= guess + 2 * DAY ==> zone(t) == if t < change then before else after
  }

  /** The clocks show this midnight twice. */
  predicate Repeated(guess: int, change: int, before: int, after: int) {
    guess - before < change <= guess - after
  }

  /** The clocks jump over this midnight. */
  predicate Skipped(guess: int, change: int, before: int, after: int) {
    guess - after < change <= guess - before
  }

  /** On whole seconds, correcting is subtracting the offset. */
  lemma CorrectedSubtracts(zone: Zone, guess: int, t: int)
    requires Sane(zone) && guess % SECOND == 0 && t % SECOND == 0
    ensures Corrected(zone, guess, t) == guess - zone(t) && Corrected(zone, guess, t) % SECOND == 0
  {
  }

  /** The two passes subtract the offset of the instant that the first of them gives. */
  lemma TwoPassSubtracts(zone: Zone, guess: int)
    requires Sane(zone) && guess % SECOND == 0
    ensures TwoPass(zone, guess) == guess - zone(guess - zone(guess))
    ensures guess - DAY < TwoPass(zone, guess) < guess + DAY
  {
    CorrectedSubtracts(zone, guess, guess);
    CorrectedSubtracts(zone, guess, guess - zone(guess));
  }

  lemma TwoPassIs(zone: Zone, guess: int, change: int, before: int, after: int)
    requires OneChange(zone, guess, change, before, after)
    ensures TwoPass(zone, guess) ==
      if change <= guess then (if guess - after < change then guess - before else guess - after)
      else (if guess - before < change then guess - before else guess - after)
  {
    TwoPassSubtracts(zone, guess);
  }

  /** A midnight is where one of the two offsets puts it, on that offset's side of the change. */
  lemma MidnightsAre(zone: Zone, guess: int, change: int, before: int, after: int, t: int)
    requires OneChange(zone, guess, change, before, after)
    ensures IsMidnight(zone, guess, t) <==>
      (t == guess - before && t < change) || (t == guess - after && t >= change)
  {
  }

  /** Two passes land exactly on local midnight whenever there is one to land on. */
  lemma LandsOnMidnight(zone: Zone, guess: int, change: int, before: int, after: int)
    requires OneChange(zone, guess, change, before, after)
    ensures IsMidnight(zone, guess, TwoPass(zone, guess)) <==> exists t :: IsMidnight(zone, guess, t)
    ensures (exists t :: IsMidnight(zone, guess, t)) <==> !Skipped(guess, change, before, after)
  {
    TwoPassIs(zone, guess, change, before, after);
    forall t
      ensures IsMidnight(zone, guess, t) <==>
        (t == guess - before && t < change) || (t == guess - after && t >= change)
    {
      MidnightsAre(zone, guess, change, before, after, t);
    }
    MidnightsAre(zone, guess, change, before, after, guess - before);
    MidnightsAre(zone, guess, change, before, after, guess - after);
  }

  /** When the clocks jump over midnight, the answer is no further from the jump than the jump is long. */
  lemma SkippedStaysNearTheJump(zone: Zone, guess: int, change: int, before: int, after: int)
    requires OneChange(zone, guess, change, before, after) && Skipped(guess, change, before, after)
    ensures before < after
    ensures change - (after - before) <= TwoPass(zone, guess) < change + (after - before)
  {
    TwoPassIs(zone, guess, change, before, after);
  }

  /** Where the two passes go past instants of the very date they open. */
  predicate StartsLate(guess: int, change: int, before: int, after: int) {
    change <= guess &&
    (Repeated(guess, change, before, after) || (Skipped(guess, change, before, after) && change < guess - before))
  }

  lemma DayHolds(day: int, x: int)
    requires day * DAY <= x < day * DAY + DAY
    ensures x / DAY == day
  {
  }

  /** `start` is no later than any instant of the period that opens with `day`. */
  ghost predicate CoversPeriod(zone: Zone, opening: int -> int, day: int, start: int) {
    forall at :: opening(LocalDay(zone, at)) == day ==> start <= at
  }

  /**
   * A period never seems to start after an instant it holds, except exactly where the zone's
   * change is at or before the date's UTC midnight and that date's own midnight comes twice or
   * falls inside the jump: the later copy, or a point after the jump, is taken for the start.
   */
  lemma StartIsNeverLateUnless(
    zone: Zone, opening: int -> int, day: int, change: int, before: int, after: int)
    requires OneChange(zone, day * DAY, change, before, after)
    requires opening(day) == day && forall d :: opening(d) <= d
    ensures CoversPeriod(zone, opening, day, TwoPass(zone, day * DAY))
       <==> !StartsLate(day * DAY, change, before, after)
  {
    var guess := day * DAY;
    var start := TwoPass(zone, guess);
    TwoPassIs(zone, guess, change, before, after);
    if StartsLate(guess, change, before, after) {
      var at := if Repeated(guess, change, before, after) then guess - before else change;
      DayHolds(day, at + zone(at));
      assert opening(LocalDay(zone, at)) == day && at < start;
    } else {
      forall at | opening(LocalDay(zone, at)) == day ensures start <= at {
        assert day <= LocalDay(zone, at);
        assert -DAY < zone(at) < DAY;
        assert guess <= at + zone(at);
      }
    }
  }

  // ---- The start of a period -------------------------------------------------------

  /** The local date each local date's period opens with: never later, and its own period's first. */
  ghost predicate IsCalendar(months: int -> int) {
    forall d :: months(d) <= d && months(months(d)) == months(d)
  }

  /**
   * `start` opens the local date `date` for `at`: with one change of offset nearby at most it is that date's
   * midnight whenever there is one, and never after `at` but for the changes `StartsLate` names.
   */
  ghost predicate Opens(zone: Zone, date: int, at: int, start: int) {
    forall change, before, after :: OneChange(zone, date * DAY, change, before, after) ==>
      && (start + zone(start) == date * DAY <==> !Skipped(date * DAY, change, before, after))
      && (!StartsLate(date * DAY, change, before, after) ==> start <= at)
  }

  lemma TwoPassOpens(zone: Zone, opening: int -> int, at: int)
    requires forall d :: opening(d) <= d && opening(opening(d)) == opening(d)
    ensures Opens(zone, opening(LocalDay(zone, at)), at, TwoPass(zone, opening(LocalDay(zone, at)) * DAY))
  {
    var date := opening(LocalDay(zone, at));
    forall change, before, after | OneChange(zone, date * DAY, change, before, after)
      ensures IsMidnight(zone, date * DAY, TwoPass(zone, date * DAY)) <==> !Skipped(date * DAY, change, before, after)
      ensures !StartsLate(date * DAY, change, before, after) ==> TwoPass(zone, date * DAY) <= at
    {
      LandsOnMidnight(zone, date * DAY, change, before, after);
      StartIsNeverLateUnless(zone, opening, date, change, before, after);
    }
  }

  lemma WholeSeconds(day: int)
    ensures day * DAY % SECOND == 0
  {
    assert day * DAY == day * 86_400 * SECOND;
  }

  lemma OffsetGrowsADay(zone: Zone, guess: int, change: int, before: int, after: int, s: int, t: int)
    requires OneChange(zone, guess, change, before, after) && guess - DAY <= s <= t <= guess + 2 * DAY
    ensures zone(t) - zone(s) <= DAY && (after - before < DAY ==> zone(t) - zone(s) < DAY)
  {
  }

  /** Starts come in the order of their dates, and no two are the same unless the clocks jump over a whole day. */
  lemma StartsKeepOrder(zone: Zone, early: int, late: int, change: int, before: int, after: int)
    requires early < late && OneChange(zone, early * DAY, change, before, after)
    ensures TwoPass(zone, early * DAY) <= TwoPass(zone, late * DAY)
    ensures late > early + 1 || after - before < DAY ==> TwoPass(zone, early * DAY) < TwoPass(zone, late * DAY)
  {
    WholeSeconds(late);
    TwoPassSubtracts(zone, early * DAY);
    TwoPassSubtracts(zone, late * DAY);
    if late == early + 1 {
      var guess, next := early * DAY, late * DAY;
      OffsetGrowsADay(zone, guess, change, before, after, guess, next);
      OffsetGrowsADay(zone, guess, change, before, after, guess - zone(guess), next - zone(next));
    }
  }

  /** A month begins no later than any of its dates. */
  lemma MonthsStartNoLater(zone: Zone, months: int -> int, day: int, change: int, before: int, after: int)
    requires IsCalendar(months) && OneChange(zone, months(day) * DAY, change, before, after)
    ensures TwoPass(zone, months(day) * DAY) <= TwoPass(zone, day * DAY)
  {
    if months(day) < day {
      StartsKeepOrder(zone, months(day), day, change, before, after);
    }
  }

  /**
   * The instant the period holding `at` began: the start of the date the clocks show then, or of the first of that
   * date's month, and so the same for every instant of one local month.
   */
  method PeriodStart(zone: Zone, period: Period, months: int -> int, at: int) returns (start: int)
    requires IsCalendar(months)
    ensures period.Day? ==>
      start == TwoPass(zone, LocalDay(zone, at) * DAY) && Opens(zone, LocalDay(zone, at), at, start)
    ensures period.Month? ==> Opens(zone, months(LocalDay(zone, at)), at, start)
    ensures period.Month? ==> forall t :: months(LocalDay(zone, t)) == months(LocalDay(zone, at)) ==>
      start == TwoPass(zone, months(LocalDay(zone, t)) * DAY)
  {
    var day := LocalDay(zone, at);
    var date := if period.Month? then months(day) else day;
    start := InstantOf(zone, date * DAY);
    if period.Month? {
      TwoPassOpens(zone, months, at);
    } else {
      TwoPassOpens(zone, d => d, at);
    }
  }

  const HOUR := 3_600_000

  /** Three hours ahead of UTC until one in the morning of day 0, which is then midnight again. */
  function ClocksBackAtOne(t: int): int {
    if t < -2 * HOUR then 3 * HOUR else 2 * HOUR
  }

  /** A day can seem to start an hour into itself: the second of its two midnights is taken. */
  lemma ADayCanStartLate()
    ensures OneChange(ClocksBackAtOne, 0, -2 * HOUR, 3 * HOUR, 2 * HOUR)
    ensures StartsLate(0, -2 * HOUR, 3 * HOUR, 2 * HOUR)
    ensures IsMidnight(ClocksBackAtOne, 0, -3 * HOUR) && LocalDay(ClocksBackAtOne, -3 * HOUR) == 0
    ensures TwoPass(ClocksBackAtOne, 0) == -3 * HOUR + HOUR
  {
    assert OneChange(ClocksBackAtOne, 0, -2 * HOUR, 3 * HOUR, 2 * HOUR);
    TwoPassIs(ClocksBackAtOne, 0, -2 * HOUR, 3 * HOUR, 2 * HOUR);
  }

  /** On UTC until half an hour before the midnight of day 0, and an hour ahead of it from then on. */
  function ClocksForwardOverMidnight(t: int): int {
    if t < -HOUR / 2 then 0 else HOUR
  }

  /** A day can also seem to start after it has begun when the clocks jump over its midnight. */
  lemma ASkippedDayCanStartLate()
    ensures OneChange(ClocksForwardOverMidnight, 0, -HOUR / 2, 0, HOUR)
    ensures Skipped(0, -HOUR / 2, 0, HOUR) && StartsLate(0, -HOUR / 2, 0, HOUR)
    ensures LocalDay(ClocksForwardOverMidnight, -HOUR / 2) == 0
    ensures TwoPass(ClocksForwardOverMidnight, 0) == 0
  {
    assert OneChange(ClocksForwardOverMidnight, 0, -HOUR / 2, 0, HOUR);
    TwoPassIs(ClocksForwardOverMidnight, 0, -HOUR / 2, 0, HOUR);
  }
}
