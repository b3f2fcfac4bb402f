/**
  The "Latest Bookings" list of the admin dashboard: the same doctor-name
  filter as the appointments view, a date matcher built from the
  display-formatted slot date and locale-dependent pieces of the picked
  date, the choice of the list shown and the "no match" message.
*/
module AdminDashboard {
  import opened Wrappers
  import opened Strings
  import opened Seqs
  import opened Appointments

  /**
    The engine- and locale-dependent functions the date matcher calls,
    each applied to a date string:
    - `slotDateFormat`: the app's display formatter; `None` when it throws;
    - `dayOf`, `monthShortOf`, `yearOf`: the text of `getDate()`,
      `toLocaleString('default', { month: 'short' })` and `getFullYear()`
      of `new Date(s)`;
    - `toDateString`: `new Date(s).toDateString()`.
  */
  datatype DateEnv = DateEnv(
    slotDateFormat: string -> Option<string>,
    dayOf: string -> string,
    monthShortOf: string -> string,
    yearOf: string -> string,
    toDateString: string -> string)

  /** The five spellings of the picked day that are looked for in the formatted slot date. */
  function Formats(env: DateEnv, dateFilter: string): (r: seq<string>)
    ensures |r| == 5
  {
    var day := env.dayOf(dateFilter);
    var month := env.monthShortOf(dateFilter);
    var year := env.yearOf(dateFilter);
    [ day + " " + month + " " + year,
      day + "-" + month + "-" + year,
      day + " " + month + ", " + year,
      month + " " + day + ", " + year,
      month + " " + day + " " + year ]
  }

  /** `formats.some(f => text.includes(f))`. */
  function AnyContained(text: string, formats: seq<string>): (r: bool)
    ensures r <==> exists i :: 0 <= i < |formats| && Contains(text, formats[i])
    decreases |formats|
  {
    if |formats| == 0 then false
    else
      var rest := AnyContained(text, formats[1..]);
      assert forall i :: 1 <= i < |formats| ==> formats[i] == formats[1..][i - 1];
      Contains(text, formats[0]) || rest
  }

  /**
    The date matcher of one booking.  A formatter that throws makes the
    booking fail the test, whatever the `toDateString` comparison would
    have said, because the formatter is called first.
  */
  predicate BookingDateMatches(env: DateEnv, slotDate: string, dateFilter: string) {
    match env.slotDateFormat(slotDate)
    case None => false
    case Some(text) =>
      AnyContained(text, Formats(env, dateFilter))
      || env.toDateString(slotDate) == env.toDateString(dateFilter)
  }

  /** The matcher spelled out: one of the five compositions occurs in the formatted date, or the `toDateString`s agree. */
  lemma BookingDateMatchesIff(env: DateEnv, slotDate: string, dateFilter: string)
    ensures BookingDateMatches(env, slotDate, dateFilter) <==>
      && env.slotDateFormat(slotDate).Some?
      && var text := env.slotDateFormat(slotDate).value;
         var day, month, year := env.dayOf(dateFilter), env.monthShortOf(dateFilter), env.yearOf(dateFilter);
         || Contains(text, day + " " + month + " " + year)
         || Contains(text, day + "-" + month + "-" + year)
         || Contains(text, day + " " + month + ", " + year)
         || Contains(text, month + " " + day + ", " + year)
         || Contains(text, month + " " + day + " " + year)
         || env.toDateString(slotDate) == env.toDateString(dateFilter)
  {
    var f := Formats(env, dateFilter);
    if env.slotDateFormat(slotDate).Some? {
      var text := env.slotDateFormat(slotDate).value;
      assert AnyContained(text, f) <==> (exists i :: 0 <= i < 5 && Contains(text, f[i]));
      assert (exists i :: 0 <= i < 5 && Contains(text, f[i])) <==>
        Contains(text, f[0]) || Contains(text, f[1]) || Contains(text, f[2]) || Contains(text, f[3]) || Contains(text, f[4]);
    }
  }

  /** What the dashboard filter keeps of one booking. */
  predicate BookingKept(env: DateEnv, a: Appointment, doctorFilter: string, dateFilter: string) {
    && (!Active(doctorFilter) || DoctorMatches(a, doctorFilter))
    && (!Active(dateFilter) || BookingDateMatches(env, a.slotDate, dateFilter))
  }

  /**
    The dashboard filter effect.  It runs only when the dashboard data
    carries a `latestAppointments` list (`None` otherwise; the previous
    filtered list then stays), and narrows a copy of that list by doctor
    name and then by the date matcher.
  */
  function DashboardFilterEffect(latest: Option<seq<Appointment>>, doctorFilter: string, dateFilter: string,
                                 previous: seq<Appointment>, env: DateEnv): (r: seq<Appointment>)
    ensures latest.None? ==> r == previous
    ensures latest.Some? ==> SubseqOf(r, latest.value)
    ensures latest.Some? ==> forall a :: a in r ==> BookingKept(env, a, doctorFilter, dateFilter)
    ensures latest.Some? ==> forall i :: 0 <= i < |latest.value| && BookingKept(env, latest.value[i], doctorFilter, dateFilter)
                                         ==> latest.value[i] in r
    ensures latest.Some? && !Active(doctorFilter) && !Active(dateFilter) ==> r == latest.value
    ensures latest.Some? ==> forall a :: multiset(r)[a] == if BookingKept(env, a, doctorFilter, dateFilter) then multiset(latest.value)[a] else 0
  {
    match latest
    case None => previous
    case Some(list) =>
      var byDoctor := ByDoctor(list, doctorFilter);
      if Active(dateFilter) then
        var r := Filter(byDoctor, (a: Appointment) => BookingDateMatches(env, a.slotDate, dateFilter));
        SubseqTrans(r, byDoctor, list);
        SubseqElements(r, byDoctor);
        r
      else
        SubseqElements(byDoctor, list);
        byDoctor
  }

  /** The two-step narrowing is one `filter` by the combined test. */
  lemma DashboardFilterIsOneFilter(latest: seq<Appointment>, doctorFilter: string, dateFilter: string,
                                   previous: seq<Appointment>, env: DateEnv)
    ensures DashboardFilterEffect(Some(latest), doctorFilter, dateFilter, previous, env)
         == Filter(latest, (a: Appointment) => BookingKept(env, a, doctorFilter, dateFilter))
  {
    FilterUnique(latest, (a: Appointment) => BookingKept(env, a, doctorFilter, dateFilter),
                 DashboardFilterEffect(Some(latest), doctorFilter, dateFilter, previous, env));
  }

  /** With only the doctor filter in force the result is exactly the matching bookings, in their original order. */
  lemma DoctorOnlyFilter(latest: seq<Appointment>, doctorFilter: string, previous: seq<Appointment>, env: DateEnv)
    requires Active(doctorFilter)
    ensures DashboardFilterEffect(Some(latest), doctorFilter, "", previous, env)
         == Filter(latest, (a: Appointment) => DoctorMatches(a, doctorFilter))
  {
  }

  /** A booking whose slot date the formatter cannot format is dropped by an active date filter. */
  lemma FormatterErrorExcludes(latest: seq<Appointment>, doctorFilter: string, dateFilter: string,
                               previous: seq<Appointment>, env: DateEnv, i: nat)
    requires Active(dateFilter)
    requires i < |latest| && env.slotDateFormat(latest[i].slotDate).None?
    ensures latest[i] !in DashboardFilterEffect(Some(latest), doctorFilter, dateFilter, previous, env)
  {
    assert !BookingKept(env, latest[i], doctorFilter, dateFilter);
  }

  /** Whether the "No bookings match your filter criteria" message is rendered. */
  predicate ShowNoMatchMessage(filtered: seq<Appointment>, doctorFilter: string, dateFilter: string) {
    (Active(doctorFilter) || Active(dateFilter)) && |filtered| == 0
  }

  /** The message appears exactly when a filter is in force and the rendered list is empty. */
  lemma NoMatchMessageIffEmptyList(latest: seq<Appointment>, filtered: seq<Appointment>,
                                   doctorFilter: string, dateFilter: string)
    ensures ShowNoMatchMessage(filtered, doctorFilter, dateFilter)
        <==> (Active(doctorFilter) || Active(dateFilter))
             && |Displayed(latest, filtered, doctorFilter, dateFilter)| == 0
  {
  }

  /**
    After the effect has run on dashboard data, the rendered list is the
    full latest list with no filter in force, and otherwise a
    subsequence of it that holds every booking the filters keep.
  */
  lemma DisplayedAfterEffect(latest: seq<Appointment>, doctorFilter: string, dateFilter: string,
                             previous: seq<Appointment>, env: DateEnv)
    ensures var shown := Displayed(latest, DashboardFilterEffect(Some(latest), doctorFilter, dateFilter, previous, env),
                                           doctorFilter, dateFilter);
            && SubseqOf(shown, latest)
            && (forall a :: a in shown ==> BookingKept(env, a, doctorFilter, dateFilter))
            && (forall i :: 0 <= i < |latest| && BookingKept(env, latest[i], doctorFilter, dateFilter) ==> latest[i] in shown)
            && (forall a :: multiset(shown)[a] == if BookingKept(env, a, doctorFilter, dateFilter) then multiset(latest)[a] else 0)
  {
  }
}
