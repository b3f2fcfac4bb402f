/**
  The doctor-panel controller of the backend: cancelling and completing
  an appointment (guards, the status update, the patient e-mail), the
  doctor dashboard aggregates, and the availability toggle.  The
  appointment collection is a map from id to record, the mail transport
  an append-only log of the messages handed to it.
*/
module DoctorController {
  import opened Wrappers
  import opened Strings
  import opened Seqs
  import opened Appointments

  // ---------------------------------------------------------------------
  // Cancel and complete
  // ---------------------------------------------------------------------

  datatype Action = Cancel | Complete

  /** One message handed to the mail transport. */
  datatype Mail = Mail(to: string, subject: string, body: string)

  /** The JSON reply: `{ success, message }`. */
  datatype Response = Response(success: bool, message: string)

  /** The appointment collection, the mail log and the reply after one request. */
  datatype Step = Step(store: map<string, Appointment>, outbox: seq<Mail>, response: Response)

  const NotFoundMessage := "Appointment not found"
  const UnauthorizedMessage := "Unauthorized to modify this appointment"
  const AlreadyFinalMessage := "Appointment already cancelled or completed"

  function StatusText(action: Action): string {
    match action
    case Cancel => "Cancelled"
    case Complete => "Completed"
  }

  function Subject(action: Action): string {
    match action
    case Cancel => "Appointment Cancelled"
    case Complete => "Appointment Completed"
  }

  function SuccessMessage(action: Action): string {
    match action
    case Cancel => "Appointment cancelled successfully."
    case Complete => "Appointment completed successfully."
  }

  /** A text made of five pieces contains its second and fourth piece. */
  function Compose(a: string, x: string, mid: string, y: string, b: string): (r: string)
    ensures Contains(r, x) && Contains(r, y)
  {
    ContainsMiddle(a, x, mid + y + b);
    ContainsMiddle(a + x + mid, y, b);
    assert a + x + (mid + y + b) == a + x + mid + y + b;
    a + x + mid + y + b
  }

  function LetterOpening(action: Action): string {
    match action
    case Cancel => "Dear Patient, \n\nWe regret to inform you that your upcoming appointment on "
    case Complete => "Dear Patient, \n\nThank you for visiting us today. Your appointment on "
  }

  function LetterClosing(action: Action): string {
    match action
    case Cancel => " has been canceled due to unforeseen circumstances."
    case Complete => " has been successfully completed. "
  }

  /** The sentence of each letter that carries the slot; the rest of the letter's wording is fixed text. */
  function Letter(action: Action, slotDate: string, slotTime: string): (body: string)
    ensures Contains(body, slotDate) && Contains(body, slotTime)
  {
    Compose(LetterOpening(action), slotDate, " at ", slotTime, LetterClosing(action))
  }

  /** The record after a successful request: the status text and the matching flag are written. */
  function Finalize(a: Appointment, action: Action): Appointment {
    match action
    case Cancel => a.(status := "Cancelled", cancelled := true)
    case Complete => a.(status := "Completed", isCompleted := true)
  }

  /** `appointment.userData?.email`, when it is truthy. */
  function Recipient(a: Appointment): Option<string> {
    match a.userEmail
    case Some(e) => if e != "" then Some(e) else None
    case None => None
  }

  /** A record no request may change any more. */
  predicate IsFinal(a: Appointment) {
    a.cancelled || a.isCompleted
  }

  /**
    The part of a request after the guards: the updated record is saved,
    then one letter is handed to the mail transport if the patient has an
    address.  `mailFailure` is the error the transport throws, if it
    does: the save has happened by then, but the reply reports failure
    with the error's message.
  */
  function Commit(store: map<string, Appointment>, outbox: seq<Mail>, appointmentId: string,
                  action: Action, mailFailure: Option<string>): (r: Step)
    requires appointmentId in store
    ensures r.store == store[appointmentId := Finalize(store[appointmentId], action)]
    ensures Recipient(store[appointmentId]).None?
            ==> r.outbox == outbox && r.response == Response(true, SuccessMessage(action))
    ensures Recipient(store[appointmentId]).Some? ==>
              && |r.outbox| == |outbox| + 1 && r.outbox[..|outbox|] == outbox
              && r.outbox[|outbox|].to == Recipient(store[appointmentId]).value
              && r.outbox[|outbox|].subject == Subject(action)
              && Contains(r.outbox[|outbox|].body, store[appointmentId].slotDate)
              && Contains(r.outbox[|outbox|].body, store[appointmentId].slotTime)
              && r.response.success == mailFailure.None?
              && (r.response.success ==> r.response.message == SuccessMessage(action))
    ensures Recipient(store[appointmentId]).Some? && mailFailure.Some?
            ==> r.response == Response(false, mailFailure.value)
  {
    var a := store[appointmentId];
    var saved := store[appointmentId := Finalize(a, action)];
    match Recipient(a)
    case None => Step(saved, outbox, Response(true, SuccessMessage(action)))
    case Some(to) =>
      var sent := outbox + [Mail(to, Subject(action), Letter(action, a.slotDate, a.slotTime))];
      assert sent[..|outbox|] == outbox;
      match mailFailure
      case Some(message) => Step(saved, sent, Response(false, message))
      case None => Step(saved, sent, Response(true, SuccessMessage(action)))
  }

  /**
    `appointmentCancel` / `appointmentComplete`.  The guards are checked
    in a fixed order (missing id, other doctor, already final) and each
    leaves the collection and the mail log as they were; a request that
    passes them is committed.
  */
  function Transition(store: map<string, Appointment>, outbox: seq<Mail>, appointmentId: string,
                      docId: string, action: Action, mailFailure: Option<string>): (r: Step)
    ensures appointmentId !in store
            ==> r == Step(store, outbox, Response(false, NotFoundMessage))
    ensures appointmentId in store && store[appointmentId].docId != docId
            ==> r == Step(store, outbox, Response(false, UnauthorizedMessage))
    ensures appointmentId in store && store[appointmentId].docId == docId && IsFinal(store[appointmentId])
            ==> r == Step(store, outbox, Response(false, AlreadyFinalMessage))
    ensures Allowed(store, appointmentId, docId) ==> r == Commit(store, outbox, appointmentId, action, mailFailure)
  {
    if appointmentId !in store then
      Step(store, outbox, Response(false, NotFoundMessage))
    else if store[appointmentId].docId != docId then
      Step(store, outbox, Response(false, UnauthorizedMessage))
    else if IsFinal(store[appointmentId]) then
      Step(store, outbox, Response(false, AlreadyFinalMessage))
    else
      Commit(store, outbox, appointmentId, action, mailFailure)
  }

  /** The guards pass: the record exists, belongs to the doctor and is still open. */
  predicate Allowed(store: map<string, Appointment>, appointmentId: string, docId: string) {
    appointmentId in store && store[appointmentId].docId == docId && !IsFinal(store[appointmentId])
  }

  /** `appointmentCancel`. */
  function AppointmentCancel(store: map<string, Appointment>, outbox: seq<Mail>, appointmentId: string,
                             docId: string, mailFailure: Option<string>): (r: Step)
    ensures Allowed(store, appointmentId, docId) ==>
              && r.store == store[appointmentId := store[appointmentId].(status := "Cancelled", cancelled := true)]
              && !r.store[appointmentId].isCompleted
    ensures !Allowed(store, appointmentId, docId) ==> r.store == store && r.outbox == outbox && !r.response.success
  {
    Transition(store, outbox, appointmentId, docId, Cancel, mailFailure)
  }

  /** `appointmentComplete`. */
  function AppointmentComplete(store: map<string, Appointment>, outbox: seq<Mail>, appointmentId: string,
                               docId: string, mailFailure: Option<string>): (r: Step)
    ensures Allowed(store, appointmentId, docId) ==>
              && r.store == store[appointmentId := store[appointmentId].(status := "Completed", isCompleted := true)]
              && !r.store[appointmentId].cancelled
    ensures !Allowed(store, appointmentId, docId) ==> r.store == store && r.outbox == outbox && !r.response.success
  {
    Transition(store, outbox, appointmentId, docId, Complete, mailFailure)
  }

  /** Writing an existing key keeps the key set and every other entry. */
  lemma UpdateFrame(store: map<string, Appointment>, k: string, a: Appointment)
    requires k in store
    ensures store[k := a].Keys == store.Keys
    ensures forall j :: j in store && j != k ==> store[k := a][j] == store[j]
  {
  }

  /** The frame of a request, stated once for both outcomes. */
  predicate Framed(store: map<string, Appointment>, outbox: seq<Mail>, appointmentId: string,
                   action: Action, r: Step) {
    && r.store.Keys == store.Keys
    && (forall k :: k in store && k != appointmentId ==> r.store[k] == store[k])
    && |outbox| <= |r.outbox| <= |outbox| + 1 && r.outbox[..|outbox|] == outbox
    && (r.response.success ==> && appointmentId in store
                               && r.store[appointmentId] == Finalize(store[appointmentId], action)
                               && r.response.message == SuccessMessage(action))
  }

  /** A committed request stays within the frame. */
  lemma CommitFramed(store: map<string, Appointment>, outbox: seq<Mail>, appointmentId: string,
                     action: Action, mailFailure: Option<string>)
    requires appointmentId in store
    ensures Framed(store, outbox, appointmentId, action, Commit(store, outbox, appointmentId, action, mailFailure))
  {
    var c := Commit(store, outbox, appointmentId, action, mailFailure);
    UpdateFrame(store, appointmentId, Finalize(store[appointmentId], action));
    if Recipient(store[appointmentId]).None? {
      assert outbox[..|outbox|] == outbox;
    }
  }

  /**
    What any request does to the collection and the mail log: the same
    ids remain, records other than the requested one never change, the
    log only grows, by at most one letter, and a success reply means the
    requested record was finalized.
  */
  lemma TransitionFrame(store: map<string, Appointment>, outbox: seq<Mail>, appointmentId: string,
                        docId: string, action: Action, mailFailure: Option<string>)
    ensures Framed(store, outbox, appointmentId, action,
                   Transition(store, outbox, appointmentId, docId, action, mailFailure))
  {
    if Allowed(store, appointmentId, docId) {
      CommitFramed(store, outbox, appointmentId, action, mailFailure);
    } else {
      assert outbox[..|outbox|] == outbox;
    }
  }

  // ---------------------------------------------------------------------
  // Invariants of the collection
  // ---------------------------------------------------------------------

  /** No record has both flags set. */
  predicate FlagsExclusive(store: map<string, Appointment>) {
    forall k :: k in store ==> !(store[k].cancelled && store[k].isCompleted)
  }

  /** The status text agrees with the flags. */
  predicate StatusAgrees(a: Appointment) {
    && a.cancelled == (a.status == "Cancelled")
    && a.isCompleted == (a.status == "Completed")
  }

  predicate StatusesAgree(store: map<string, Appointment>) {
    forall k :: k in store ==> StatusAgrees(store[k])
  }

  /** Writing one record that has at most one flag keeps the flags exclusive. */
  lemma UpdateKeepsFlagsExclusive(store: map<string, Appointment>, k: string, a: Appointment)
    requires FlagsExclusive(store) && !(a.cancelled && a.isCompleted)
    ensures FlagsExclusive(store[k := a])
  {
  }

  /** Writing one record whose status agrees with its flags keeps all statuses in agreement. */
  lemma UpdateKeepsStatusesAgree(store: map<string, Appointment>, k: string, a: Appointment)
    requires StatusesAgree(store) && StatusAgrees(a)
    ensures StatusesAgree(store[k := a])
  {
  }

  /** The collection after a request: either unchanged or with the one record finalized. */
  lemma StoreAfter(store: map<string, Appointment>, outbox: seq<Mail>, appointmentId: string,
                   docId: string, action: Action, mailFailure: Option<string>)
    ensures var r := Transition(store, outbox, appointmentId, docId, action, mailFailure);
            if Allowed(store, appointmentId, docId)
            then r.store == store[appointmentId := Finalize(store[appointmentId], action)]
            else r.store == store
  {
  }

  /** Every request keeps the two flags from being set together. */
  lemma TransitionKeepsFlagsExclusive(store: map<string, Appointment>, outbox: seq<Mail>, appointmentId: string,
                                      docId: string, action: Action, mailFailure: Option<string>)
    requires FlagsExclusive(store)
    ensures FlagsExclusive(Transition(store, outbox, appointmentId, docId, action, mailFailure).store)
  {
    StoreAfter(store, outbox, appointmentId, docId, action, mailFailure);
    if Allowed(store, appointmentId, docId) {
      UpdateKeepsFlagsExclusive(store, appointmentId, Finalize(store[appointmentId], action));
    }
  }

  /** Every request keeps each status text in agreement with its flags. */
  lemma TransitionKeepsStatusesAgree(store: map<string, Appointment>, outbox: seq<Mail>, appointmentId: string,
                                     docId: string, action: Action, mailFailure: Option<string>)
    requires StatusesAgree(store)
    ensures StatusesAgree(Transition(store, outbox, appointmentId, docId, action, mailFailure).store)
  {
    StoreAfter(store, outbox, appointmentId, docId, action, mailFailure);
    if Allowed(store, appointmentId, docId) {
      UpdateKeepsStatusesAgree(store, appointmentId, Finalize(store[appointmentId], action));
    }
  }

  /**
    There is no edge out of a final state, and none between the two final
    states: a request on a cancelled or completed record changes neither
    the collection nor the mail log and fails, as already final when it
    comes from the record's doctor.
  */
  lemma FinalRefused(store: map<string, Appointment>, outbox: seq<Mail>, appointmentId: string,
                     docId: string, action: Action, mailFailure: Option<string>)
    requires appointmentId in store && IsFinal(store[appointmentId])
    ensures var r := Transition(store, outbox, appointmentId, docId, action, mailFailure);
            && r.store == store && r.outbox == outbox && !r.response.success
            && (store[appointmentId].docId == docId ==> r.response.message == AlreadyFinalMessage)
  {
  }

  /**
    Terminality: after an allowed request, every later cancel or complete
    of the same appointment by its doctor is refused as already final,
    and a request by anyone changes neither the record nor the mail log.
  */
  lemma FinalIsTerminal(store: map<string, Appointment>, outbox: seq<Mail>, appointmentId: string,
                        docId: string, action: Action, mailFailure: Option<string>,
                        docId2: string, action2: Action, mailFailure2: Option<string>)
    requires Allowed(store, appointmentId, docId)
    ensures var first := Transition(store, outbox, appointmentId, docId, action, mailFailure);
            var second := Transition(first.store, first.outbox, appointmentId, docId2, action2, mailFailure2);
            && second.store == first.store
            && second.outbox == first.outbox
            && !second.response.success
            && (docId2 == docId ==> second.response.message == AlreadyFinalMessage)
  {
    var first := Transition(store, outbox, appointmentId, docId, action, mailFailure);
    StoreAfter(store, outbox, appointmentId, docId, action, mailFailure);
    var finalized := Finalize(store[appointmentId], action);
    assert first.store[appointmentId] == finalized;
    assert IsFinal(finalized) && finalized.docId == docId;
    FinalRefused(first.store, first.outbox, appointmentId, docId2, action2, mailFailure2);
  }

  /** A retried request sends no second letter: two identical requests hand at most one letter to the transport. */
  lemma RetrySendsAtMostOneLetter(store: map<string, Appointment>, outbox: seq<Mail>, appointmentId: string,
                                  docId: string, action: Action, mailFailure: Option<string>)
    ensures var first := Transition(store, outbox, appointmentId, docId, action, mailFailure);
            var second := Transition(first.store, first.outbox, appointmentId, docId, action, mailFailure);
            && |second.outbox| <= |outbox| + 1
            && !second.response.success
  {
    var first := Transition(store, outbox, appointmentId, docId, action, mailFailure);
    if Allowed(store, appointmentId, docId) {
      FinalIsTerminal(store, outbox, appointmentId, docId, action, mailFailure, docId, action, mailFailure);
    }
  }

  // ---------------------------------------------------------------------
  // Doctor dashboard
  // ---------------------------------------------------------------------

  datatype DashData = DashData(earnings: int, appointments: nat, patients: nat, latestAppointments: seq<Appointment>)

  /** An appointment counts towards earnings when it is completed or paid. */
  predicate Earns(a: Appointment) {
    a.isCompleted || a.payment
  }

  /** Sum of `amount` over the earning appointments. */
  function Earnings(s: seq<Appointment>): int
    decreases |s|
  {
    if |s| == 0 then 0
    else Earnings(s[..|s| - 1]) + (if Earns(s[|s| - 1]) then s[|s| - 1].amount else 0)
  }

  /** The distinct patients of a list. */
  function PatientIds(s: seq<Appointment>): set<string> {
    set i | 0 <= i < |s| :: s[i].userId
  }

  predicate NoDuplicates(s: seq<string>) {
    forall i, j :: 0 <= i < j < |s| ==> s[i] != s[j]
  }

  /** A list without repetitions has as many distinct elements as entries. */
  lemma {:induction false} DistinctCount(s: seq<string>)
    requires NoDuplicates(s)
    ensures |set x | x in s| == |s|
    decreases |s|
  {
    if |s| > 0 {
      var init := s[..|s| - 1];
      DistinctCount(init);
      assert (set x | x in s) == (set x | x in init) + {s[|s| - 1]};
      assert s[|s| - 1] !in init;
    }
  }

  /** The query `{ docId }`: the doctor's appointments in stored order. */
  function OwnAppointments(all: seq<Appointment>, docId: string): (r: seq<Appointment>)
    ensures SubseqOf(r, all)
    ensures forall a :: a in r <==> a in all && a.docId == docId
    ensures forall a :: multiset(r)[a] == if a.docId == docId then multiset(all)[a] else 0
  {
    var r := Filter(all, (a: Appointment) => a.docId == docId);
    SubseqElements(r, all);
    assert forall a :: a in all && a.docId == docId ==> a in r by {
      forall a | a in all && a.docId == docId ensures a in r {
        var i :| 0 <= i < |all| && all[i] == a;
      }
    }
    r
  }

  /**
    `doctorDashboard`: over the doctor's appointments, earnings summed in
    one pass, distinct patients collected in a second, the list handed
    back reversed.
  */
  method DoctorDashboard(all: seq<Appointment>, docId: string) returns (dash: DashData)
    ensures var apps := OwnAppointments(all, docId);
            && dash.earnings == Earnings(apps)
            && dash.appointments == |apps|
            && dash.patients == |PatientIds(apps)|
            && dash.patients <= dash.appointments
            && |dash.latestAppointments| == |apps|
            && forall i :: 0 <= i < |apps| ==> dash.latestAppointments[i] == apps[|apps| - 1 - i]
  {
    var apps := OwnAppointments(all, docId);
    dash := Summarize(apps);
  }

  /** The aggregation of `doctorDashboard` over a given list. */
  method Summarize(apps: seq<Appointment>) returns (dash: DashData)
    ensures dash.earnings == Earnings(apps)
    ensures dash.appointments == |apps|
    ensures dash.patients == |PatientIds(apps)|
    ensures dash.patients <= dash.appointments
    ensures |dash.latestAppointments| == |apps|
    ensures forall i :: 0 <= i < |apps| ==> dash.latestAppointments[i] == apps[|apps| - 1 - i]
  {
    var earnings := TotalEarnings(apps);
    var patients := CountPatients(apps);
    dash := DashData(earnings, |apps|, patients, Reverse(apps));
  }

  /** The first pass of `doctorDashboard`: the amounts of the completed or paid appointments, summed. */
  method TotalEarnings(apps: seq<Appointment>) returns (earnings: int)
    ensures earnings == Earnings(apps)
  {
    earnings := 0;
    var i := 0;
    while i < |apps|
      invariant 0 <= i <= |apps|
      invariant earnings == Earnings(apps[..i])
    {
      assert apps[..i + 1][..i] == apps[..i];
      if Earns(apps[i]) {
        earnings := earnings + apps[i].amount;
      }
      i := i + 1;
    }
    assert apps[..|apps|] == apps;
  }

  /** One more appointment adds its patient to the patients seen so far. */
  lemma PatientIdsStep(apps: seq<Appointment>, i: nat)
    requires i < |apps|
    ensures PatientIds(apps[..i + 1]) == PatientIds(apps[..i]) + {apps[i].userId}
  {
    assert forall k :: 0 <= k < i ==> apps[..i + 1][k] == apps[..i][k];
    assert apps[..i + 1][i] == apps[i];
  }

  /** The second pass of `doctorDashboard`: the patient ids collected without repetition, counted. */
  method CountPatients(apps: seq<Appointment>) returns (count: nat)
    ensures count == |PatientIds(apps)|
    ensures count <= |apps|
  {
    var patients: seq<string> := [];
    var i := 0;
    while i < |apps|
      invariant 0 <= i <= |apps|
      invariant NoDuplicates(patients)
      invariant (set x | x in patients) == PatientIds(apps[..i])
      invariant |patients| <= i
    {
      PatientIdsStep(apps, i);
      if apps[i].userId !in patients {
        patients := patients + [apps[i].userId];
      }
      i := i + 1;
    }
    assert apps[..|apps|] == apps;
    DistinctCount(patients);
    count := |patients|;
  }

  // ---------------------------------------------------------------------
  // Availability
  // ---------------------------------------------------------------------

  datatype Doctor = Doctor(name: string, fees: int, available: bool)

  /**
    `changeAvailablity`: the doctor's `available` flag is replaced by its
    negation.  An unknown id makes the read of `available` throw; the
    reply then carries the engine's error text, `readError`.
  */
  function ChangeAvailability(doctors: map<string, Doctor>, docId: string, readError: string)
    : (r: (map<string, Doctor>, Response))
    ensures docId in doctors ==>
              && r.0.Keys == doctors.Keys
              && r.0[docId].available == !doctors[docId].available
              && r.0[docId].(available := doctors[docId].available) == doctors[docId]
              && (forall k :: k in doctors && k != docId ==> r.0[k] == doctors[k])
              && r.1 == Response(true, "Availablity Changed")
    ensures docId !in doctors ==> r.0 == doctors && r.1 == Response(false, readError)
  {
    if docId !in doctors then (doctors, Response(false, readError))
    else
      var d := doctors[docId];
      (doctors[docId := d.(available := !d.available)], Response(true, "Availablity Changed"))
  }

  /** Toggling twice restores the original collection. */
  lemma ToggleTwiceRestores(doctors: map<string, Doctor>, docId: string, readError: string)
    ensures ChangeAvailability(ChangeAvailability(doctors, docId, readError).0, docId, readError).0 == doctors
  {
    if docId in doctors {
      var once := ChangeAvailability(doctors, docId, readError).0;
      var twice := ChangeAvailability(once, docId, readError).0;
      assert twice[docId] == doctors[docId];
    }
  }
}
