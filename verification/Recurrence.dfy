/** The dates of a recurring schedule.

    The production code resolves a schedule to an origin once and computes occurrence number i as an offset
    from it, clamping a nominal day to short months, and walks the series from its start for every question.
    Here that series is compared with the rule it stands for, stated without origins or indices: a date
    belongs to a schedule when it is a whole number of intervals away from the anchor and not before it.

    Dates are day ordinals; turning them to and from ISO text is the library's business. */
module Recurrence {

  import opened Wrappers
  import opened Calendar
  import opened DateWalk

  type Date = c: Civil | IsDate(c) witness Civil(1, 1, 1)

  datatype Frequency = Daily | Weekly | Monthly | Yearly | Unknown

  /** A date field holds the date its text parses to, or Some(None) where the text is not a date. */
  datatype Spec = Spec(frequency: Frequency, interval: int, weekday: Option<int>, dayOfMonth: int, lastDay: bool,
                       monthOfYear: int, startsOn: Option<Date>, endsOn: Option<Option<Date>>, maxOccurrences: int)

  datatype Error = FrequencyInvalid | IntervalInvalid | WeekdayMissing | DayOfMonthInvalid | MonthInvalid | DateInvalid | WindowTooWide

  const CAP: nat := 4000

  function ValidateMonthDay(spec: Spec): Option<Error> {
    if spec.lastDay then (if spec.dayOfMonth != 0 then Some(DayOfMonthInvalid) else None)
    else if spec.dayOfMonth < 1 || spec.dayOfMonth > 31 then Some(DayOfMonthInvalid)
    else None
  }

  /** The first reason a schedule is unusable. */
  function Validate(spec: Spec): Option<Error> {
    if spec.frequency.Unknown? then Some(FrequencyInvalid)
    else if spec.interval < 1 then Some(IntervalInvalid)
    else if spec.startsOn.None? then Some(DateInvalid)
    else if spec.endsOn.Some? && (spec.endsOn.value.None? || Ordinal(spec.endsOn.value.value) < Ordinal(spec.startsOn.value)) then Some(DateInvalid)
    else if spec.maxOccurrences < 0 then Some(IntervalInvalid)
    else match spec.frequency
      case Unknown => Some(FrequencyInvalid)
      case Daily => None
      case Weekly => if spec.weekday.None? || !(0 <= spec.weekday.value <= 6) then Some(WeekdayMissing) else None
      case Monthly => ValidateMonthDay(spec)
      case Yearly =>
        if ValidateMonthDay(spec).Some? then ValidateMonthDay(spec)
        else if spec.monthOfYear < 1 || spec.monthOfYear > 12 then Some(MonthInvalid)
        else None
  }

  type Usable = spec: Spec | Validate(spec).None?
    witness Spec(Daily, 1, None, 0, false, 0, Some(Civil(1, 1, 1)), None, 0)

  /** What a schedule must have to be used. */
  predicate Sensible(spec: Spec) {
    && !spec.frequency.Unknown? && spec.interval >= 1 && spec.maxOccurrences >= 0 && spec.startsOn.Some?
    && (spec.endsOn.Some? ==> spec.endsOn.value.Some? && Ordinal(spec.startsOn.value) <= Ordinal(spec.endsOn.value.value))
    && (spec.frequency.Weekly? ==> spec.weekday.Some? && 0 <= spec.weekday.value <= 6)
    && (spec.frequency.Monthly? || spec.frequency.Yearly? ==> HasDay(spec))
    && (spec.frequency.Yearly? ==> 1 <= spec.monthOfYear <= 12)
  }

  /** Exactly one of a day of the month and the last-day flag. */
  predicate HasDay(spec: Spec) { if spec.lastDay then spec.dayOfMonth == 0 else 1 <= spec.dayOfMonth <= 31 }

  /** A schedule is accepted if and only if it has all that, and an error names something it lacks. */
  lemma ValidateIffSensible(spec: Spec)
    ensures Validate(spec).None? <==> Sensible(spec)
    ensures Validate(spec) == Some(FrequencyInvalid) <==> spec.frequency.Unknown?
    ensures Validate(spec) == Some(IntervalInvalid) ==> spec.interval < 1 || spec.maxOccurrences < 0
    ensures Validate(spec) == Some(WeekdayMissing) ==> spec.frequency.Weekly? && (spec.weekday.None? || !(0 <= spec.weekday.value <= 6))
    ensures Validate(spec) == Some(DayOfMonthInvalid) ==> (spec.frequency.Monthly? || spec.frequency.Yearly?) && !HasDay(spec)
    ensures Validate(spec) == Some(MonthInvalid) ==> spec.frequency.Yearly? && !(1 <= spec.monthOfYear <= 12)
    ensures Validate(spec) == Some(DateInvalid) ==>
              || spec.startsOn.None?
              || (spec.endsOn.Some? && (spec.endsOn.value.None? || Ordinal(spec.endsOn.value.value) < Ordinal(spec.startsOn.value)))
    ensures Validate(spec) != Some(WindowTooWide)
  {
  }

  /* ---------------------------------------------------------------- the series */

  function Anchor(spec: Usable): int { Ordinal(spec.startsOn.value) }

  /** The schedule's day inside a month: the nominal day, or the last one of a shorter month. */
  function Clamp(spec: Usable, month: int): (day: int)
    requires spec.frequency.Monthly? || spec.frequency.Yearly?
    ensures Before(month) + 1 <= day <= Before(month) + Length(month)
  {
    Before(month) + if spec.lastDay || spec.dayOfMonth > Length(month) then Length(month) else spec.dayOfMonth
  }

  /** The month the anchor itself belongs to, and the months from one occurrence to the next. */
  function AnchorMonth(spec: Usable): int {
    if spec.frequency.Monthly? then MonthOf(spec.startsOn.value) else 12 * spec.startsOn.value.year + spec.monthOfYear - 1
  }

  function MonthStep(spec: Usable): int { if spec.frequency.Monthly? then spec.interval else 12 * spec.interval }

  function OriginMonth(spec: Usable): int
    requires spec.frequency.Monthly? || spec.frequency.Yearly?
  {
    // a day that has already passed in the anchor's month moves the whole series one interval on
    if Clamp(spec, AnchorMonth(spec)) < Anchor(spec) then AnchorMonth(spec) + MonthStep(spec) else AnchorMonth(spec)
  }

  /** The first such weekday on or after a day. */
  function OnOrAfter(day: int, weekday: int): (d: int)
    requires 0 <= weekday <= 6
    ensures Weekday(d) == weekday && day <= d < day + 7
  {
    WeekdayReached(day, weekday);
    day + (weekday - Weekday(day) + 7) % 7
  }

  function FirstWeekday(spec: Usable): int
    requires spec.frequency.Weekly?
  {
    OnOrAfter(Anchor(spec), spec.weekday.value)
  }

  /** Occurrence number i. */
  function At(spec: Usable, i: int): int {
    if spec.frequency.Daily? then Anchor(spec) + i * spec.interval
    else if spec.frequency.Weekly? then FirstWeekday(spec) + 7 * (i * spec.interval)
    else Clamp(spec, OriginMonth(spec) + i * MonthStep(spec))
  }

  lemma {:induction false} StepsAscend(i: int, j: int, k: int)
    requires i < j && k >= 1
    ensures i * k + k <= j * k
    decreases j - i
  {
    Distribute(j - 1, k);
    if i < j - 1 {
      StepsAscend(i, j - 1, k);
    }
  }

  lemma Distribute(i: int, k: int)
    ensures (i + 1) * k == i * k + k
  {
  }

  /** No date occurs twice: later occurrences are later days, also across clamped months. */
  lemma SeriesAscends(spec: Usable, i: int, j: int)
    requires i < j
    ensures At(spec, i) < At(spec, j)
  {
    if spec.frequency.Daily? || spec.frequency.Weekly? {
      StepsAscend(i, j, spec.interval);
    } else {
      StepsAscend(i, j, MonthStep(spec));
      MonthsAscend(OriginMonth(spec) + i * MonthStep(spec), OriginMonth(spec) + j * MonthStep(spec));
    }
  }

  lemma SeriesStartsAtAnchor(spec: Usable)
    ensures At(spec, 0) >= Anchor(spec)
  {
    if spec.frequency.Monthly? || spec.frequency.Yearly? {
      assert 0 * MonthStep(spec) == 0;
      OriginIsNotBeforeAnchor(spec);
    }
  }

  lemma OriginIsNotBeforeAnchor(spec: Usable)
    requires spec.frequency.Monthly? || spec.frequency.Yearly?
    ensures Clamp(spec, OriginMonth(spec)) >= Anchor(spec)
  {
    if Clamp(spec, AnchorMonth(spec)) < Anchor(spec) {
      AnchorMonthIsNear(spec);
      AnchorIsInItsMonth(spec.startsOn.value);
      MonthsAscend(MonthOf(spec.startsOn.value), OriginMonth(spec));
    }
  }

  lemma AnchorIsInItsMonth(d: Date)
    ensures Before(MonthOf(d)) + 1 <= Ordinal(d) <= Before(MonthOf(d)) + Length(MonthOf(d))
  {
    MonthParts(d.year, d.month - 1);
    assert Length(MonthOf(d)) == DaysInMonth(d.year, d.month - 1);
  }

  /** One interval past the anchor's month is past the anchor. */
  lemma AnchorMonthIsNear(spec: Usable)
    requires spec.frequency.Monthly? || spec.frequency.Yearly?
    ensures MonthOf(spec.startsOn.value) < AnchorMonth(spec) + MonthStep(spec)
  {
  }

  /* ---------------------------------------------------------------- the rule */

  /** The date j whole intervals from the anchor, in either direction. */
  function Nominal(spec: Usable, j: int): int {
    if spec.frequency.Daily? then Anchor(spec) + j * spec.interval
    else if spec.frequency.Weekly? then FirstWeekday(spec) + 7 * (j * spec.interval)
    else Clamp(spec, AnchorMonth(spec) + j * MonthStep(spec))
  }

  /** A date of the schedule, before any end: not before the anchor, on the schedule's day, and a whole number of
      intervals of days, calendar weeks counted from the anchor, months or years away from it. */
  ghost predicate OnRule(spec: Usable, date: int) {
    var start := Ordinal(spec.startsOn.value);
    date >= start
    && match spec.frequency
       case Daily => (date - start) % spec.interval == 0
       case Weekly => Weekday(date) == spec.weekday.value && (date - start) / 7 % spec.interval == 0
       case Monthly => exists c :: OnMonth(spec, c, date)
       case Yearly => exists c :: OnYear(spec, c, date)
       case Unknown => false
  }

  predicate IsDay(c: Civil) { 1 <= c.month <= 12 && 1 <= c.day <= DaysInMonth(c.year, c.month - 1) }

  /** The nominal day of the month, or the month's last one where that is wanted or comes first. */
  predicate HasNominalDay(spec: Spec, c: Civil) {
    var last := DaysInMonth(c.year, c.month - 1);
    c.day == if !spec.lastDay && spec.dayOfMonth <= last then spec.dayOfMonth else last
  }

  predicate OnMonth(spec: Usable, c: Civil, date: int) {
    IsDay(c) && Ordinal(c) == date && HasNominalDay(spec, c) && (MonthOf(c) - MonthOf(spec.startsOn.value)) % spec.interval == 0
  }

  predicate OnYear(spec: Usable, c: Civil, date: int) {
    && IsDay(c) && Ordinal(c) == date && HasNominalDay(spec, c)
    && c.month == spec.monthOfYear && (c.year - spec.startsOn.value.year) % spec.interval == 0
  }

  /** The schedule's day inside a month, as a calendar day. */
  function DayIn(spec: Usable, month: int): Civil
    requires spec.frequency.Monthly? || spec.frequency.Yearly?
  {
    Civil(month / 12, month % 12 + 1, Clamp(spec, month) - Before(month))
  }

  lemma DayInIsNominal(spec: Usable, month: int)
    requires spec.frequency.Monthly? || spec.frequency.Yearly?
    ensures var c := DayIn(spec, month); IsDay(c) && Ordinal(c) == Clamp(spec, month) && MonthOf(c) == month && HasNominalDay(spec, c)
  {
    assert month == 12 * (month / 12) + month % 12;
  }

  lemma NominalDayIsClamped(spec: Usable, c: Civil)
    requires (spec.frequency.Monthly? || spec.frequency.Yearly?) && IsDay(c) && HasNominalDay(spec, c)
    ensures Ordinal(c) == Clamp(spec, MonthOf(c))
  {
    MonthParts(c.year, c.month - 1);
    assert Length(MonthOf(c)) == DaysInMonth(c.year, c.month - 1);
  }

  lemma DivisionParts(x: int, k: int)
    requires k >= 1
    ensures x == x / k * k + x % k && 0 <= x % k < k
  {
  }

  lemma DivisionIsUnique(x: int, k: int, q: int, rest: int)
    requires k >= 1 && x == q * k + rest && 0 <= rest < k
    ensures x / k == q && x % k == rest
  {
    DivisionParts(x, k);
    if x / k < q {
      StepsAscend(x / k, q, k);
    } else if q < x / k {
      StepsAscend(q, x / k, k);
    }
  }

  lemma MultipleIsWhole(x: int, k: int)
    requires k >= 1 && x % k == 0
    ensures x == x / k * k
  {
    DivisionParts(x, k);
  }

  lemma WholeIsMultiple(j: int, k: int)
    requires k >= 1
    ensures j * k % k == 0
  {
    DivisionIsUnique(j * k, k, j, 0);
  }

  lemma Yearwise(a: int, b: int, j: int, k: int)
    requires a == b + j * k
    ensures 12 * a == 12 * b + j * (12 * k)
  {
  }

  /** Whole weeks after the first occurrence are as many weeks after the anchor. */
  lemma WeekOf(anchor: int, first: int, n: int)
    requires anchor <= first < anchor + 7
    ensures (first + 7 * n - anchor) / 7 == n
  {
  }

  lemma SameWeekday(date: int, first: int)
    requires date % 7 == first % 7
    ensures date == first + 7 * ((date - first) / 7)
  {
  }

  lemma WeekIsOnRule(anchor: int, weekday: int, k: int, j: int)
    requires 0 <= weekday <= 6 && k >= 1
    ensures var date := OnOrAfter(anchor, weekday) + 7 * (j * k); Weekday(date) == weekday && (date - anchor) / 7 % k == 0
  {
    WeeksKeepTheDay(OnOrAfter(anchor, weekday), j * k);
    WeekOf(anchor, OnOrAfter(anchor, weekday), j * k);
    WholeIsMultiple(j, k);
  }

  lemma OnRuleIsAWeek(anchor: int, weekday: int, k: int, date: int) returns (j: int)
    requires 0 <= weekday <= 6 && k >= 1 && Weekday(date) == weekday && (date - anchor) / 7 % k == 0
    ensures date == OnOrAfter(anchor, weekday) + 7 * (j * k)
  {
    var first := OnOrAfter(anchor, weekday);
    SameWeekday(date, first);
    var n := (date - first) / 7;
    WeekOf(anchor, first, n);
    j := n / k;
    MultipleIsWhole(n, k);
  }

  lemma OnRuleIsADay(anchor: int, k: int, date: int) returns (j: int)
    requires k >= 1 && (date - anchor) % k == 0
    ensures date == anchor + j * k
  {
    j := (date - anchor) / k;
    MultipleIsWhole(date - anchor, k);
  }

  lemma YearlyIsOnRule(spec: Usable, j: int)
    requires spec.frequency.Yearly?
    ensures var month := AnchorMonth(spec) + j * MonthStep(spec); OnYear(spec, DayIn(spec, month), Clamp(spec, month))
  {
    var from, k := spec.startsOn.value.year, spec.interval;
    var year, month := from + j * k, AnchorMonth(spec) + j * MonthStep(spec);
    Yearwise(year, from, j, k);
    assert month == 12 * year + (spec.monthOfYear - 1);
    MonthParts(year, spec.monthOfYear - 1);
    DayInIsNominal(spec, month);
    WholeIsMultiple(j, k);
  }

  lemma MonthlyIsOnRule(spec: Usable, j: int)
    requires spec.frequency.Monthly?
    ensures var month := AnchorMonth(spec) + j * MonthStep(spec); OnMonth(spec, DayIn(spec, month), Clamp(spec, month))
  {
    DayInIsNominal(spec, AnchorMonth(spec) + j * MonthStep(spec));
    WholeIsMultiple(j, spec.interval);
  }

  /** Every nominal date from the anchor on is on the rule. */
  lemma NominalIsOnRule(spec: Usable, j: int)
    requires Nominal(spec, j) >= Anchor(spec)
    ensures OnRule(spec, Nominal(spec, j))
  {
    match spec.frequency
    case Daily => WholeIsMultiple(j, spec.interval);
    case Weekly => WeekIsOnRule(Anchor(spec), spec.weekday.value, spec.interval, j);
    case Monthly => MonthlyIsOnRule(spec, j);
    case Yearly => YearlyIsOnRule(spec, j);
  }

  lemma MonthIsNominal(spec: Usable, month: int) returns (j: int)
    requires spec.frequency.Monthly? && (month - MonthOf(spec.startsOn.value)) % spec.interval == 0
    ensures month == AnchorMonth(spec) + j * MonthStep(spec)
  {
    j := (month - AnchorMonth(spec)) / spec.interval;
    MultipleIsWhole(month - AnchorMonth(spec), spec.interval);
  }

  lemma YearIsNominal(spec: Usable, year: int) returns (j: int)
    requires spec.frequency.Yearly? && (year - spec.startsOn.value.year) % spec.interval == 0
    ensures 12 * year + spec.monthOfYear - 1 == AnchorMonth(spec) + j * MonthStep(spec)
  {
    var from := spec.startsOn.value.year;
    j := (year - from) / spec.interval;
    MultipleIsWhole(year - from, spec.interval);
    Yearwise(year, from, j, spec.interval);
  }

  lemma MonthlyIsNominal(spec: Usable, c: Civil, date: int) returns (j: int)
    requires spec.frequency.Monthly? && OnMonth(spec, c, date)
    ensures Nominal(spec, j) == date
  {
    NominalDayIsClamped(spec, c);
    j := MonthIsNominal(spec, MonthOf(c));
  }

  lemma YearlyIsNominal(spec: Usable, c: Civil, date: int) returns (j: int)
    requires spec.frequency.Yearly? && OnYear(spec, c, date)
    ensures Nominal(spec, j) == date
  {
    NominalDayIsClamped(spec, c);
    j := YearIsNominal(spec, c.year);
  }

  /** Every date on the rule is a nominal one. */
  lemma OnRuleIsNominal(spec: Usable, date: int) returns (j: int)
    requires OnRule(spec, date)
    ensures Nominal(spec, j) == date
  {
    match spec.frequency
    case Daily => j := OnRuleIsADay(Anchor(spec), spec.interval, date);
    case Weekly => j := OnRuleIsAWeek(Anchor(spec), spec.weekday.value, spec.interval, date);
    case Monthly =>
      var c :| OnMonth(spec, c, date);
      j := MonthlyIsNominal(spec, c, date);
    case Yearly =>
      var c :| OnYear(spec, c, date);
      j := YearlyIsNominal(spec, c, date);
  }

  lemma WeeksKeepTheDay(date: int, n: int)
    ensures (date + 7 * n) % 7 == date % 7
  {
  }

  lemma WeekdayReached(date: int, weekday: int)
    requires 0 <= weekday <= 6
    ensures (date + (weekday - date % 7 + 7) % 7) % 7 == weekday
  {
  }

  lemma NominalAscends(spec: Usable, i: int, j: int)
    requires i < j
    ensures Nominal(spec, i) < Nominal(spec, j)
  {
    if spec.frequency.Daily? || spec.frequency.Weekly? {
      StepsAscend(i, j, spec.interval);
    } else {
      StepsAscend(i, j, MonthStep(spec));
      MonthsAscend(AnchorMonth(spec) + i * MonthStep(spec), AnchorMonth(spec) + j * MonthStep(spec));
    }
  }

  /** How far the series is shifted against the rule: not at all, or by the one interval whose date was
      already past. */
  function Shift(spec: Usable): int {
    if (spec.frequency.Monthly? || spec.frequency.Yearly?) && Clamp(spec, AnchorMonth(spec)) < Anchor(spec) then 1 else 0
  }

  lemma SeriesIsShiftedRule(spec: Usable, i: int)
    ensures At(spec, i) == Nominal(spec, i + Shift(spec))
  {
    Distribute(i, MonthStep(spec));
  }

  /** Dates before the series are before the anchor. */
  lemma NothingIsSkipped(spec: Usable, j: int)
    requires Nominal(spec, j) >= Anchor(spec)
    ensures j >= Shift(spec)
  {
    if spec.frequency.Monthly? || spec.frequency.Yearly? {
      if j < 0 {
        NominalAscends(spec, j, 0);
        StepsAscend(j, 0, MonthStep(spec));
        if AnchorMonth(spec) + j * MonthStep(spec) < MonthOf(spec.startsOn.value) {
          MonthsAscend(AnchorMonth(spec) + j * MonthStep(spec), MonthOf(spec.startsOn.value));
        }
      }
      assert 0 * MonthStep(spec) == 0;
    } else if j < 0 {
      StepsAscend(j, 0, spec.interval);
    }
  }

  lemma OccurrenceIsOnRule(spec: Usable, i: int)
    requires 0 <= i
    ensures OnRule(spec, At(spec, i))
  {
    SeriesIsShiftedRule(spec, i);
    SeriesStartsAtAnchor(spec);
    if i > 0 {
      SeriesAscends(spec, 0, i);
    }
    NominalIsOnRule(spec, i + Shift(spec));
  }

  lemma OnRuleOccurs(spec: Usable, date: int) returns (i: int)
    requires OnRule(spec, date)
    ensures 0 <= i && At(spec, i) == date
  {
    var j := OnRuleIsNominal(spec, date);
    NothingIsSkipped(spec, j);
    i := j - Shift(spec);
    SeriesIsShiftedRule(spec, i);
  }

  /** The series enumerates exactly the dates of the rule, so its phase never drifts: after "the 31st" fell on
      28 February it is 31 March again. */
  lemma SeriesIsTheRule(spec: Usable, date: int)
    ensures (exists i :: 0 <= i && At(spec, i) == date) <==> OnRule(spec, date)
  {
    if i :| 0 <= i && At(spec, i) == date {
      OccurrenceIsOnRule(spec, i);
    }
    if OnRule(spec, date) {
      var i := OnRuleOccurs(spec, date);
    }
  }

  /* ---------------------------------------------------------------- answering a schedule's questions */

  /** The schedule as the walk sees it: occurrence dates, the count, and the last possible date, which is the
      end of the four-digit calendar or the schedule's own end. */
  function SeriesOf(spec: Usable): Series {
    Series((i: int) => At(spec, i), spec.maxOccurrences,
           if spec.endsOn.Some? && Ordinal(spec.endsOn.value.value) < LAST then Ordinal(spec.endsOn.value.value) else LAST)
  }

  lemma SeriesOfRises(spec: Usable)
    ensures Rising(SeriesOf(spec))
  {
    forall i ensures Rises(SeriesOf(spec), i) {
      SeriesAscends(spec, i, i + 1);
    }
  }

  /** The dates a schedule has in a window. */
  function Window(spec: Usable, from: int, to: int): seq<int> {
    SeriesOfRises(spec);
    Dates(SeriesOf(spec), from, to, 0)
  }

  /** The dates of the rule up to one. */
  ghost function RuleDates(spec: Usable, upTo: int): set<int> {
    set d: int | Ordinal(spec.startsOn.value) <= d <= upTo && OnRule(spec, d)
  }

  /** A date of the schedule: on the rule, in the four-digit calendar, not past the schedule's end and, where the schedule
      has a count, among that many first dates of the rule. */
  ghost predicate InSchedule(spec: Usable, date: int) {
    && OnRule(spec, date) && date <= Ordinal(Civil(9999, 12, 31))
    && (spec.endsOn.Some? ==> date <= Ordinal(spec.endsOn.value.value))
    && (spec.maxOccurrences > 0 ==> |RuleDates(spec, date)| <= spec.maxOccurrences)
  }

  /** Nothing else is on the rule, and nothing on it is left out. */
  lemma SeriesNumbersTheRule(spec: Usable)
    ensures Numbers(SeriesOf(spec), d => OnRule(spec, d))
  {
    forall i | 0 <= i ensures OnRule(spec, At(spec, i)) {
      OccurrenceIsOnRule(spec, i);
    }
    forall d | OnRule(spec, d) ensures exists i :: 0 <= i && SeriesOf(spec).at(i) == d {
      var i := OnRuleOccurs(spec, d);
      assert SeriesOf(spec).at(i) == d;
    }
  }

  /** Occurrence number i is the date of the rule with exactly i before it. */
  lemma OccurrencesAreCounted(spec: Usable, i: int)
    requires 0 <= i
    ensures |RuleDates(spec, At(spec, i))| == i + 1
  {
    var s := SeriesOf(spec);
    SeriesOfRises(spec);
    SeriesNumbersTheRule(spec);
    CountUpTo(s, d => OnRule(spec, d), Anchor(spec), i);
    assert RuleDates(spec, s.at(i)) == UpTo(d => OnRule(spec, d), Anchor(spec), s.at(i));
  }

  lemma ScheduledIsInSchedule(spec: Usable, i: int, date: int)
    requires 0 <= i && At(spec, i) == date
    ensures Scheduled(SeriesOf(spec), i, date) <==> InSchedule(spec, date)
  {
    OccurrenceIsOnRule(spec, i);
    OccurrencesAreCounted(spec, i);
  }

  /** The series holds exactly the dates of the schedule. */
  lemma SeriesIsTheSchedule(spec: Usable, date: int)
    ensures (exists i :: 0 <= i && Scheduled(SeriesOf(spec), i, date)) <==> InSchedule(spec, date)
  {
    if i :| 0 <= i && Scheduled(SeriesOf(spec), i, date) {
      ScheduledIsInSchedule(spec, i, date);
    }
    if InSchedule(spec, date) {
      var i := OnRuleOccurs(spec, date);
      ScheduledIsInSchedule(spec, i, date);
    }
  }

  /** A window holds exactly the schedule's dates that fall into it, in ascending order. */
  lemma WindowIsTheRule(spec: Usable, from: int, to: int, date: int)
    ensures Ascending(Window(spec, from, to))
    ensures date in Window(spec, from, to) <==> from <= date <= to && InSchedule(spec, date)
  {
    SeriesOfRises(spec);
    DatesAscend(SeriesOf(spec), from, to, 0);
    DatesAreScheduled(SeriesOf(spec), from, to, 0, date);
    SeriesIsTheSchedule(spec, date);
  }

  /** The schedule's dates in a window. */
  ghost function ScheduledIn(spec: Usable, from: int, to: int): set<int> {
    set d: int | from <= d <= to && InSchedule(spec, d)
  }

  lemma {:induction false} AscendingCount(dates: seq<int>)
    requires Ascending(dates)
    ensures |set d | d in dates| == |dates|
  {
    if dates != [] {
      var front, last := dates[..|dates| - 1], dates[|dates| - 1];
      AscendingCount(front);
      assert (set d | d in dates) == (set d | d in front) + {last};
    }
  }

  lemma WindowCount(spec: Usable, from: int, to: int)
    ensures (set d | d in Window(spec, from, to)) == ScheduledIn(spec, from, to)
    ensures |Window(spec, from, to)| == |ScheduledIn(spec, from, to)| && Ascending(Window(spec, from, to))
  {
    forall d ensures d in Window(spec, from, to) <==> d in ScheduledIn(spec, from, to) {
      WindowIsTheRule(spec, from, to, d);
    }
    WindowIsTheRule(spec, from, to, from);
    AscendingCount(Window(spec, from, to));
    assert (set d | d in Window(spec, from, to)) == ScheduledIn(spec, from, to);
  }

  /** Adjacent windows add up: splitting a wide request into bounded windows loses no date and repeats none. */
  lemma SplitWindow(spec: Usable, a: int, b: int, c: int)
    requires a <= b + 1 && b <= c
    ensures Window(spec, a, b) + Window(spec, b + 1, c) == Window(spec, a, c)
  {
    SeriesOfRises(spec);
    WindowsAddUp(SeriesOf(spec), a, b, c, 0);
  }

  lemma EmptyWindow(spec: Usable, from: int, to: int)
    requires to < from
    ensures ScheduledIn(spec, from, to) == {} && Window(spec, from, to) == []
  {
    WindowCount(spec, from, to);
    assert ScheduledIn(spec, from, to) == {};
  }

  /** Every date of a window in ascending order, or the first reason there is no answer.  The window is
      refused exactly when it would hold more dates than the cap. */
  method Occurrences(spec: Spec, from: Option<Date>, to: Option<Date>) returns (r: Result<seq<int>, Error>)
    ensures Validate(spec).Some? ==> r == Err(Validate(spec).value)
    ensures Validate(spec).None? && (from.None? || to.None?) ==> r == Err(DateInvalid)
    ensures Validate(spec).None? && from.Some? && to.Some? ==>
              var all := ScheduledIn(spec, Ordinal(from.value), Ordinal(to.value));
              && (r.Err? <==> |all| > 4000)
              && (r.Err? ==> r.error == WindowTooWide)
              && (r.Ok? ==> Ascending(r.value) && (set d | d in r.value) == all && r.value == Window(spec, Ordinal(from.value), Ordinal(to.value)))
  {
    var problem := Validate(spec);
    if problem.Some? {
      return Err(problem.value);
    }
    if from.None? || to.None? {
      return Err(DateInvalid);
    }
    WindowCount(spec, Ordinal(from.value), Ordinal(to.value));
    if Ordinal(to.value) < Ordinal(from.value) {
      EmptyWindow(spec, Ordinal(from.value), Ordinal(to.value));
      return Ok([]);
    }
    SeriesOfRises(spec);
    var dates, complete := Collect(SeriesOf(spec), Ordinal(from.value), Ordinal(to.value), CAP);
    r := if complete then Ok(dates) else Err(WindowTooWide);
  }

  /** The schedule's first date strictly after a day, if it has one. */
  ghost predicate IsNextDate(spec: Usable, after: int, next: Option<int>) {
    && (next.Some? ==> after < next.value && InSchedule(spec, next.value))
    && (forall d :: after < d && InSchedule(spec, d) ==> next.Some? && next.value <= d)
  }

  lemma NextIsTheRule(spec: Usable, after: int, next: Option<int>)
    requires IsNext(SeriesOf(spec), after, next.Some?, if next.Some? then next.value else 0)
    ensures IsNextDate(spec, after, next)
  {
    var s := SeriesOf(spec);
    if next.Some? {
      var i :| Scheduled(s, i, next.value);
      SeriesIsTheSchedule(spec, next.value);
    }
    forall d | after < d && InSchedule(spec, d) ensures next.Some? && next.value <= d {
      SeriesIsTheSchedule(spec, d);
      var i :| 0 <= i && Scheduled(s, i, d);
      assert Occurs(s, i);
    }
  }

  /** The first date strictly after a given one, or none when the series ends first. */
  method Next(spec: Spec, after: Option<Date>) returns (r: Result<Option<int>, Error>)
    ensures Validate(spec).Some? ==> r == Err(Validate(spec).value)
    ensures Validate(spec).None? && after.None? ==> r == Err(DateInvalid)
    ensures Validate(spec).None? && after.Some? ==> r.Ok? && IsNextDate(spec, Ordinal(after.value), r.value)
  {
    var problem := Validate(spec);
    if problem.Some? {
      return Err(problem.value);
    }
    if after.None? {
      return Err(DateInvalid);
    }
    SeriesOfRises(spec);
    var found, date := FirstAfter(SeriesOf(spec), Ordinal(after.value));
    r := Ok(if found then Some(date) else None);
    NextIsTheRule(spec, Ordinal(after.value), r.value);
  }
}
