/**
  The admin "All Appointments" view: the filter effect (doctor name, then
  calendar day), the statistics effect, and the choice of which list is
  shown and which list the statistics are taken from.  Each React effect
  is a pure function of the values it depends on.
*/
module AllAppointments {
  import opened Wrappers
  import opened Strings
  import opened Seqs
  import opened Calendar
  import opened DateParsing
  import opened Appointments

  // ---------------------------------------------------------------------
  // The filter effect
  // ---------------------------------------------------------------------

  /**
    The per-appointment date test: the slot date's parts equal the filter
    day's, after the filter's month has gone through the May remap.  A
    slot date that yields no parts never matches.
  */
  predicate DateMatches(slotDate: string, filterDay: CalDate, fallback: string -> Option<CalDate>) {
    match ExtractDateParts(slotDate, fallback)
    case None => false
    case Some(p) => p.year == filterDay.year && p.month == RemapMay(filterDay.month) && p.day == filterDay.day
  }

  /** What the filter effect keeps of one appointment. */
  predicate Kept(a: Appointment, doctorFilter: string, dateFilter: string, fallback: string -> Option<CalDate>) {
    && (!Active(doctorFilter) || DoctorMatches(a, doctorFilter))
    && (!Active(dateFilter) || ParseDate(dateFilter, fallback).None?
        || DateMatches(a.slotDate, ParseDate(dateFilter, fallback).value, fallback))
  }

  /**
    The filter effect.  It only runs when there are appointments; with
    none, the previously filtered list stays as it was.  Otherwise the
    list is narrowed by doctor name and then, when the filter date
    parses, by calendar day; a filter date that does not parse leaves the
    date step out.
  */
  function FilterEffect(apps: seq<Appointment>, doctorFilter: string, dateFilter: string,
                        previous: seq<Appointment>, fallback: string -> Option<CalDate>): (r: seq<Appointment>)
    ensures |apps| == 0 ==> r == previous
    ensures |apps| > 0 ==> SubseqOf(r, apps)
    ensures |apps| > 0 ==> forall a :: a in r ==> Kept(a, doctorFilter, dateFilter, fallback)
    ensures |apps| > 0 ==> forall i :: 0 <= i < |apps| && Kept(apps[i], doctorFilter, dateFilter, fallback) ==> apps[i] in r
    ensures |apps| > 0 && (!Active(dateFilter) || ParseDate(dateFilter, fallback).None?) ==> r == ByDoctor(apps, doctorFilter)
    ensures |apps| > 0 && !Active(doctorFilter) && !Active(dateFilter) ==> r == apps
    ensures |apps| > 0 ==> forall a :: multiset(r)[a] == if Kept(a, doctorFilter, dateFilter, fallback) then multiset(apps)[a] else 0
  {
    if |apps| == 0 then previous
    else
      var byDoctor := ByDoctor(apps, doctorFilter);
      if Active(dateFilter) && ParseDate(dateFilter, fallback).Some? then
        var f := ParseDate(dateFilter, fallback).value;
        var r := Filter(byDoctor, (a: Appointment) => DateMatches(a.slotDate, f, fallback));
        SubseqTrans(r, byDoctor, apps);
        SubseqElements(r, byDoctor);
        r
      else
        SubseqElements(byDoctor, apps);
        byDoctor
  }

  /** The two-step narrowing is one `filter` by the combined test. */
  lemma FilterEffectIsOneFilter(apps: seq<Appointment>, doctorFilter: string, dateFilter: string,
                                previous: seq<Appointment>, fallback: string -> Option<CalDate>)
    requires |apps| > 0
    ensures FilterEffect(apps, doctorFilter, dateFilter, previous, fallback)
         == Filter(apps, (a: Appointment) => Kept(a, doctorFilter, dateFilter, fallback))
  {
    FilterUnique(apps, (a: Appointment) => Kept(a, doctorFilter, dateFilter, fallback),
                 FilterEffect(apps, doctorFilter, dateFilter, previous, fallback));
  }

  // ---------------------------------------------------------------------
  // Statistics
  // ---------------------------------------------------------------------

  datatype Stats = Stats(
    totalEarnings: int,
    appointmentCount: nat,
    completedCount: nat,
    pendingCount: nat,
    cancelledCount: nat)

  predicate IsCompleted(a: Appointment) { a.isCompleted }
  predicate IsPending(a: Appointment) { !a.isCompleted && !a.cancelled }
  predicate IsCancelled(a: Appointment) { a.cancelled }
  predicate BothFlags(a: Appointment) { a.isCompleted && a.cancelled }

  function SumAmounts(s: seq<Appointment>): int
    decreases |s|
  {
    if |s| == 0 then 0 else s[0].amount + SumAmounts(s[1..])
  }

  /** How many of `s` satisfy `p`: the length of the filtered list. */
  function CountWhere(s: seq<Appointment>, p: Appointment -> bool): nat {
    |Filter(s, p)|
  }

  /** Completed, pending and cancelled counts cover the list, with an item carrying both flags counted twice. */
  lemma {:induction false} CountsCover(s: seq<Appointment>)
    ensures CountWhere(s, IsCompleted) + CountWhere(s, IsPending) + CountWhere(s, IsCancelled)
         == |s| + CountWhere(s, BothFlags)
    decreases |s|
  {
    if |s| > 0 {
      CountsCover(s[1..]);
    }
  }

  /** The earnings the statistics promise: the amounts of the completed items, added one by one. */
  function CompletedEarnings(s: seq<Appointment>): int
    decreases |s|
  {
    if |s| == 0 then 0 else (if s[0].isCompleted then s[0].amount else 0) + CompletedEarnings(s[1..])
  }

  /** Summing the amounts of the completed sublist gives the completed earnings. */
  lemma {:induction false} SumOfCompleted(s: seq<Appointment>)
    ensures SumAmounts(Filter(s, IsCompleted)) == CompletedEarnings(s)
    decreases |s|
  {
    if |s| > 0 {
      SumOfCompleted(s[1..]);
    }
  }

  /**
    The statistics effect over the list it is given: the length, the
    number of completed, of pending (neither flag) and of cancelled
    items, and the sum of the amounts of the completed items.
  */
  function ComputeStats(current: seq<Appointment>): (r: Stats)
    ensures r.appointmentCount == |current|
    ensures r.completedCount == Count(current, IsCompleted)
    ensures r.pendingCount == Count(current, IsPending)
    ensures r.cancelledCount == Count(current, IsCancelled)
    ensures r.totalEarnings == CompletedEarnings(current)
    ensures r.completedCount + r.pendingCount + r.cancelledCount
         == r.appointmentCount + CountWhere(current, BothFlags)
    ensures (forall a :: a in current ==> !BothFlags(a))
         ==> r.completedCount + r.pendingCount + r.cancelledCount == r.appointmentCount
    ensures r.completedCount == 0 ==> r.totalEarnings == 0
    ensures r.completedCount <= r.appointmentCount && r.pendingCount <= r.appointmentCount
    ensures r.cancelledCount <= r.appointmentCount
  {
    var completed := Filter(current, IsCompleted);
    var pending := Filter(current, IsPending);
    var cancelled := Filter(current, IsCancelled);
    CountsCover(current);
    SubseqLength(completed, current);
    SubseqLength(pending, current);
    SubseqLength(cancelled, current);
    FilterLength(current, IsCompleted);
    FilterLength(current, IsPending);
    FilterLength(current, IsCancelled);
    SumOfCompleted(current);
    Stats(SumAmounts(completed), |current|, |completed|, |pending|, |cancelled|)
  }

  /** With no completed item the statistics show no completed appointment and no earnings. */
  lemma {:induction false} NoCompletedNoEarnings(s: seq<Appointment>)
    requires forall i :: 0 <= i < |s| ==> !s[i].isCompleted
    ensures ComputeStats(s).completedCount == 0 && ComputeStats(s).totalEarnings == 0
    decreases |s|
  {
    if |s| > 0 {
      NoCompletedNoEarnings(s[1..]);
    }
  }

  // ---------------------------------------------------------------------
  // Which list is shown, and which one the statistics read
  // ---------------------------------------------------------------------

  /** The list the statistics effect reads: the filtered list when it is non-empty or a filter is in force. */
  function StatsSource(apps: seq<Appointment>, filtered: seq<Appointment>, doctorFilter: string, dateFilter: string): (r: seq<Appointment>)
    ensures |filtered| > 0 || Active(doctorFilter) || Active(dateFilter) ==> r == filtered
    ensures |filtered| == 0 && !Active(doctorFilter) && !Active(dateFilter) ==> r == apps
  {
    if |filtered| > 0 || Active(doctorFilter) || Active(dateFilter) then filtered else apps
  }

  /** Once the filter effect has run over a non-empty list, the statistics describe exactly the displayed list. */
  lemma StatsDescribeDisplayed(apps: seq<Appointment>, doctorFilter: string, dateFilter: string,
                               previous: seq<Appointment>, fallback: string -> Option<CalDate>)
    requires |apps| > 0
    ensures var filtered := FilterEffect(apps, doctorFilter, dateFilter, previous, fallback);
            StatsSource(apps, filtered, doctorFilter, dateFilter) == Displayed(apps, filtered, doctorFilter, dateFilter)
  {
  }

  /**
    When the appointment list becomes empty the filter effect does not
    run, so with no filter in force a stale non-empty filtered list still
    feeds the statistics while the table shows nothing.
  */
  lemma StaleStatsOnEmptyList(doctorFilter: string, dateFilter: string,
                              previous: seq<Appointment>, fallback: string -> Option<CalDate>)
    requires !Active(doctorFilter) && !Active(dateFilter) && |previous| > 0
    ensures var filtered := FilterEffect([], doctorFilter, dateFilter, previous, fallback);
            && Displayed([], filtered, doctorFilter, dateFilter) == []
            && StatsSource([], filtered, doctorFilter, dateFilter) == previous
  {
  }

  // ---------------------------------------------------------------------
  // Consequences of the May remap for the date filter
  // ---------------------------------------------------------------------

  /** Outside May, a date-picker filter day matches a slot date of the same day in every accepted form. */
  lemma FilterMatchesSameDay(date: CalDate, fallback: string -> Option<CalDate>)
    requires Printable(date) && Valid(date) && date.year >= 100 && date.month != 4
    ensures ParseDate(IsoText(date), fallback) == Some(date)
    ensures DateMatches(LongText(date), date, fallback)
    ensures DateMatches(UnderscoreText(date), date, fallback)
    ensures DateMatches(IsoText(date), date, fallback)
    ensures DateMatches(DashText(date), date, fallback)
  {
    NumericFormsAgree(date, fallback);
    TextAgreesWithNumeric(date, fallback);
  }

  /**
    A filter day in May (month index 4, adjusted to 3) matches text-form
    slot dates of that day in May and in April, and never a numeric-form
    slot date in May.
  */
  lemma MayFilterMismatch(date: CalDate, fallback: string -> Option<CalDate>)
    requires Printable(date) && Valid(date) && date.year >= 100 && date.month == 4
    ensures ParseDate(IsoText(date), fallback) == Some(date)
    ensures DateMatches(LongText(date), date, fallback)
    ensures DateMatches(LongText(date.(month := 3)), date, fallback)
    ensures !DateMatches(UnderscoreText(date), date, fallback)
    ensures !DateMatches(IsoText(date), date, fallback)
    ensures !DateMatches(DashText(date), date, fallback)
  {
    NumericFormsAgree(date, fallback);
    TextDisagreesInMay(date, fallback);
    LongTextParts(date.(month := 3));
    NumericFormsHaveNoSpace(date);
  }

  /** The remap also makes an April filter day match a text-form slot date in May. */
  lemma AprilFilterMatchesMayText(date: CalDate, fallback: string -> Option<CalDate>)
    requires Printable(date) && date.month == 3
    ensures DateMatches(LongText(date.(month := 4)), date, fallback)
    ensures DateMatches(LongText(date), date, fallback)
  {
    LongTextParts(date.(month := 4));
    LongTextParts(date);
  }

  /**
    The mismatch seen through the whole effect: filtering by a May day
    picked in the date control keeps a `"D May YYYY"` slot of that day
    and drops a `"D_5_YYYY"` slot of the same day.
  */
  lemma MayFilterThroughEffect(date: CalDate, apps: seq<Appointment>, i: nat, j: nat,
                               previous: seq<Appointment>, fallback: string -> Option<CalDate>)
    requires Printable(date) && Valid(date) && date.year >= 100 && date.month == 4
    requires i < |apps| && apps[i].slotDate == LongText(date)
    requires j < |apps| && apps[j].slotDate == UnderscoreText(date)
    ensures apps[i] in FilterEffect(apps, "", IsoText(date), previous, fallback)
    ensures apps[j] !in FilterEffect(apps, "", IsoText(date), previous, fallback)
  {
    MayFilterMismatch(date, fallback);
    var r := FilterEffect(apps, "", IsoText(date), previous, fallback);
    assert Kept(apps[i], "", IsoText(date), fallback);
    assert !Kept(apps[j], "", IsoText(date), fallback);
  }
}
