/** The appointment record shared by the backend controller and the admin views. */
module Appointments {
  import opened Wrappers
  import opened Strings
  import opened Seqs

  /**
    An appointment document with the fields the core reads.  `docName` is
    the doctor snapshot's `docData.name`; `userEmail` is the patient
    snapshot's `userData.email`, absent when the snapshot has none.
    `status` is kept as the free string the document stores beside the
    two boolean flags.
  */
  datatype Appointment = Appointment(
    userId: string,
    docId: string,
    docName: string,
    userEmail: Option<string>,
    slotDate: string,
    slotTime: string,
    amount: int,
    payment: bool,
    status: string,
    cancelled: bool,
    isCompleted: bool)

  /** A filter text is in force when it is truthy, that is non-empty. */
  predicate Active(filter: string) {
    filter != ""
  }

  /** The doctor-name filter: the lower-cased name contains the lower-cased filter text. */
  predicate DoctorMatches(a: Appointment, filter: string) {
    Contains(ToLower(a.docName), ToLower(filter))
  }

  /**
    The list a view renders: the filtered list while a filter is in
    force, the full list otherwise.  Both admin views choose this way.
  */
  function Displayed(all: seq<Appointment>, filtered: seq<Appointment>, doctorFilter: string, dateFilter: string)
    : (r: seq<Appointment>)
    ensures Active(doctorFilter) || Active(dateFilter) ==> r == filtered
    ensures !Active(doctorFilter) && !Active(dateFilter) ==> r == all
  {
    if Active(doctorFilter) || Active(dateFilter) then filtered else all
  }

  /** The doctor step of both filter effects: applied only when the doctor filter is in force. */
  function ByDoctor(apps: seq<Appointment>, doctorFilter: string): (r: seq<Appointment>)
    ensures SubseqOf(r, apps)
    ensures Active(doctorFilter) ==> forall a :: a in r ==> DoctorMatches(a, doctorFilter)
    ensures forall i :: 0 <= i < |apps| && (!Active(doctorFilter) || DoctorMatches(apps[i], doctorFilter)) ==> apps[i] in r
    ensures !Active(doctorFilter) ==> r == apps
    ensures forall a :: multiset(r)[a] == if !Active(doctorFilter) || DoctorMatches(a, doctorFilter) then multiset(apps)[a] else 0
  {
    if Active(doctorFilter) then
      Filter(apps, (a: Appointment) => DoctorMatches(a, doctorFilter))
    else
      SubseqRefl(apps);
      apps
  }
}
