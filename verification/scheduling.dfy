/** The clinic schedule of the scheduling agent: doctors with their slots, and the scheduling
    agent's own list of patients with their appointments. Available-slot search, booking,
    rescheduling and cancellation are pure functions from one store to the next; an operation
    that raises in the source returns `Failure` and no store. */
module Scheduling {
  import opened Wrappers
  import opened Sorting
  import BaseAgent
  import Text

  /** A slot. `start` is the already-parsed start time; an absent binding is `None`. */
  datatype Slot = Slot(
    slotId: string,
    start: int,
    location: string,
    status: string,
    patientId: Option<string>,
    appointmentId: Option<string>)

  datatype Doctor = Doctor(id: string, name: string, availability: seq<Slot>)

  /** An appointment. An appointment without a slot reference has `slotId == ""`. */
  datatype Appointment = Appointment(
    appointmentId: string,
    slotId: string,
    doctorId: string,
    doctor: string,
    datetime: int,
    location: string,
    status: string)

  datatype SchedPatient = SchedPatient(id: string, appointments: seq<Appointment>)

  datatype Store = Store(doctors: seq<Doctor>, patients: seq<SchedPatient>)

  /** A position in a two-level list: outer index `d`, inner index `s`. */
  datatype Pos = Pos(d: nat, s: nat)

  /** A slot as offered to the caller, merged with its doctor's name and id. */
  datatype SlotOffer = SlotOffer(slot: Slot, doctorName: string, doctorId: string)

  /** The appointment an operation returns, with the store after it. */
  datatype Outcome = Outcome(appointment: Appointment, store: Store)

  const Available := "available"
  const Booked := "booked"
  const Scheduled := "scheduled"
  const Canceled := "canceled"
  const SlotAlreadyBooked := "Slot already booked"
  const RequestedSlotBooked := "Requested slot is already booked"

  // ---------------------------------------------------------------- two-level search

  /** The first position holding `id`, scanning outer lists in order and each inner list in order. */
  function FindInGrid(grid: seq<seq<string>>, id: string): (r: Option<Pos>)
    ensures r.Some? ==> r.value.d < |grid| && r.value.s < |grid[r.value.d]| && grid[r.value.d][r.value.s] == id
    ensures r.Some? ==> forall s :: 0 <= s < r.value.s ==> grid[r.value.d][s] != id
    ensures r.Some? ==> forall d, s :: 0 <= d < r.value.d && 0 <= s < |grid[d]| ==> grid[d][s] != id
    ensures r.None? ==> forall d, s :: 0 <= d < |grid| && 0 <= s < |grid[d]| ==> grid[d][s] != id
    decreases |grid|
  {
    if grid == [] then None
    else
      match Text.IndexOf(grid[0], id)
      case Some(s) => Some(Pos(0, s))
      case None =>
        match FindInGrid(grid[1..], id)
        case None => None
        case Some(p) => Some(Pos(p.d + 1, p.s))
  }

  // ---------------------------------------------------------------- slots

  predicate ValidPos(doctors: seq<Doctor>, p: Pos) {
    p.d < |doctors| && p.s < |doctors[p.d].availability|
  }

  function SlotAt(doctors: seq<Doctor>, p: Pos): Slot
    requires ValidPos(doctors, p)
  {
    doctors[p.d].availability[p.s]
  }

  /** The slot ids of every doctor, in order. */
  function SlotIds(doctors: seq<Doctor>): (g: seq<seq<string>>)
    ensures |g| == |doctors|
    ensures forall d :: 0 <= d < |doctors| ==> |g[d]| == |doctors[d].availability|
    ensures forall d, s :: 0 <= d < |doctors| && 0 <= s < |doctors[d].availability| ==>
      g[d][s] == doctors[d].availability[s].slotId
  {
    seq(|doctors|, d requires 0 <= d < |doctors| =>
      seq(|doctors[d].availability|, s requires 0 <= s < |doctors[d].availability| =>
        doctors[d].availability[s].slotId))
  }

  /** `_find_slot` without the error: the first slot with that id. */
  function FindSlot(doctors: seq<Doctor>, slotId: string): (r: Option<Pos>)
    ensures r.Some? ==> ValidPos(doctors, r.value) && SlotAt(doctors, r.value).slotId == slotId
    ensures r.None? ==> forall p :: ValidPos(doctors, p) ==> SlotAt(doctors, p).slotId != slotId
  {
    var r := FindInGrid(SlotIds(doctors), slotId);
    if r.None? then
      assert forall p :: ValidPos(doctors, p) ==> SlotIds(doctors)[p.d][p.s] == SlotAt(doctors, p).slotId;
      r
    else r
  }

  /** `_find_slot_by_id`: no slot for an empty reference. */
  function FindSlotById(doctors: seq<Doctor>, slotId: string): (r: Option<Pos>)
    ensures slotId == [] ==> r.None?
    ensures slotId != [] ==> r == FindSlot(doctors, slotId)
  {
    if slotId == [] then None else FindSlot(doctors, slotId)
  }

  function RequireSlot(doctors: seq<Doctor>, slotId: string): (r: Result<Pos, string>)
    ensures r.Success? <==> FindSlot(doctors, slotId).Some?
    ensures r.Success? ==> r.value == FindSlot(doctors, slotId).value
    ensures r.Failure? ==> r.error == "Slot not found: " + BaseAgent.ProtectPhi(slotId)
  {
    match FindSlot(doctors, slotId)
    case Some(p) => Success(p)
    case None => Failure("Slot not found: " + BaseAgent.ProtectPhi(slotId))
  }

  /** Replaces one slot; everything else stays as it was. */
  function WithSlot(doctors: seq<Doctor>, p: Pos, slot: Slot): (r: seq<Doctor>)
    requires ValidPos(doctors, p)
    ensures |r| == |doctors|
    ensures forall d :: 0 <= d < |r| ==>
      r[d].id == doctors[d].id && r[d].name == doctors[d].name
      && |r[d].availability| == |doctors[d].availability|
    ensures SlotAt(r, p) == slot
    ensures forall q :: ValidPos(doctors, q) && q != p ==> SlotAt(r, q) == SlotAt(doctors, q)
  {
    var doc := doctors[p.d];
    doctors[p.d := doc.(availability := doc.availability[p.s := slot])]
  }

  lemma WithSlotKeepsIds(doctors: seq<Doctor>, p: Pos, slot: Slot)
    requires ValidPos(doctors, p) && slot.slotId == SlotAt(doctors, p).slotId
    ensures SlotIds(WithSlot(doctors, p, slot)) == SlotIds(doctors)
  {
    var a, b := SlotIds(WithSlot(doctors, p, slot)), SlotIds(doctors);
    forall d | 0 <= d < |doctors| ensures a[d] == b[d] {
      forall s | 0 <= s < |a[d]| ensures a[d][s] == b[d][s] {
        if Pos(d, s) != p {
          assert ValidPos(doctors, Pos(d, s));
        }
      }
    }
  }

  /** A slot released: available again, with no patient or appointment bound to it. */
  function Free(slot: Slot): (r: Slot)
    ensures r.status == Available && r.patientId.None? && r.appointmentId.None?
    ensures r.slotId == slot.slotId && r.start == slot.start && r.location == slot.location
  {
    slot.(status := Available, patientId := None, appointmentId := None)
  }

  // ---------------------------------------------------------------- doctors and search

  /** A string reference names a doctor by id or by name; the empty reference names none. */
  predicate Names(ref: string, doc: Doctor) {
    ref != [] && (doc.id == ref || doc.name == ref)
  }

  /** `_find_doctor`: the first doctor the reference names. */
  function FindDoctor(doctors: seq<Doctor>, ref: string): (r: Result<nat, string>)
    ensures r.Success? ==> r.value < |doctors| && Names(ref, doctors[r.value])
    ensures r.Success? ==> forall j :: 0 <= j < r.value ==> !Names(ref, doctors[j])
    ensures r.Failure? <==> forall j :: 0 <= j < |doctors| ==> !Names(ref, doctors[j])
    ensures r.Failure? ==> r.error == "Doctor not found: " + ref
    decreases |doctors|
  {
    if doctors == [] then Failure("Doctor not found: " + ref)
    else if Names(ref, doctors[0]) then Success(0)
    else
      match FindDoctor(doctors[1..], ref)
      case Failure(e) => Failure(e)
      case Success(k) => Success(k + 1)
  }

  /** The slot is open for booking and starts inside the optional inclusive range. */
  predicate Offerable(slot: Slot, range: Option<(int, int)>) {
    slot.status == Available && (range.None? || (range.value.0 <= slot.start <= range.value.1))
  }

  /** The offerable slots of one doctor, in schedule order. */
  function Offers(slots: seq<Slot>, doc: Doctor, range: Option<(int, int)>): (r: seq<SlotOffer>)
    ensures forall o :: o in r <==>
      (o.slot in slots && Offerable(o.slot, range) && o.doctorName == doc.name && o.doctorId == doc.id)
    decreases |slots|
  {
    if slots == [] then []
    else
      var rest := Offers(slots[1..], doc, range);
      assert forall x :: x in slots <==> x == slots[0] || x in slots[1..];
      if Offerable(slots[0], range) then [SlotOffer(slots[0], doc.name, doc.id)] + rest else rest
  }

  function StartOf(o: SlotOffer): int {
    o.slot.start
  }

  /** `find_available_slots`: the named doctor's available slots inside the range, sorted by start. */
  function FindAvailableSlots(doctors: seq<Doctor>, doctorRef: string, range: Option<(int, int)>)
    : (r: Result<seq<SlotOffer>, string>)
    ensures r.Failure? <==> FindDoctor(doctors, doctorRef).Failure?
    ensures r.Success? ==> SortedBy(r.value, StartOf)
    ensures r.Success? ==> var doc := doctors[FindDoctor(doctors, doctorRef).value];
      forall o :: o in r.value <==>
        (o.slot in doc.availability && Offerable(o.slot, range) && o.doctorName == doc.name && o.doctorId == doc.id)
    ensures r.Success? ==> var doc := doctors[FindDoctor(doctors, doctorRef).value];
      multiset(r.value) == multiset(Offers(doc.availability, doc, range))
  {
    var k :- FindDoctor(doctors, doctorRef);
    var doc := doctors[k];
    var offers := Offers(doc.availability, doc, range);
    var sorted := SortBy(offers, StartOf);
    assert forall o :: o in sorted <==> o in offers by {
      forall o ensures o in sorted <==> o in offers {
        assert o in sorted <==> o in multiset(sorted);
        assert o in offers <==> o in multiset(offers);
      }
    }
    Success(sorted)
  }

  // ---------------------------------------------------------------- patients and appointments

  function IndexOfPatient(patients: seq<SchedPatient>, id: string): (r: Option<nat>)
    ensures r.Some? ==> r.value < |patients| && patients[r.value].id == id
    ensures r.None? ==> forall j :: 0 <= j < |patients| ==> patients[j].id != id
    decreases |patients|
  {
    if patients == [] then None
    else if patients[0].id == id then Some(0)
    else
      match IndexOfPatient(patients[1..], id)
      case None => None
      case Some(k) => Some(k + 1)
  }

  /** `_require_patient` of the scheduling agent. */
  function RequirePatient(patients: seq<SchedPatient>, id: string): (r: Result<nat, string>)
    ensures r.Success? <==> IndexOfPatient(patients, id).Some?
    ensures r.Success? ==> r.value == IndexOfPatient(patients, id).value
    ensures r.Failure? ==> r.error == "Patient not found: " + BaseAgent.ProtectPhi(id)
  {
    match IndexOfPatient(patients, id)
    case Some(k) => Success(k)
    case None => Failure("Patient not found: " + BaseAgent.ProtectPhi(id))
  }

  predicate ValidAppt(patients: seq<SchedPatient>, p: Pos) {
    p.d < |patients| && p.s < |patients[p.d].appointments|
  }

  function ApptAt(patients: seq<SchedPatient>, p: Pos): Appointment
    requires ValidAppt(patients, p)
  {
    patients[p.d].appointments[p.s]
  }

  function AppointmentIds(patients: seq<SchedPatient>): (g: seq<seq<string>>)
    ensures |g| == |patients|
    ensures forall d :: 0 <= d < |patients| ==> |g[d]| == |patients[d].appointments|
    ensures forall d, s :: 0 <= d < |patients| && 0 <= s < |patients[d].appointments| ==>
      g[d][s] == patients[d].appointments[s].appointmentId
  {
    seq(|patients|, d requires 0 <= d < |patients| =>
      seq(|patients[d].appointments|, s requires 0 <= s < |patients[d].appointments| =>
        patients[d].appointments[s].appointmentId))
  }

  /** `_find_patient_appointment`: the first appointment with that id, in patient order. */
  function FindAppointment(patients: seq<SchedPatient>, appointmentId: string): (r: Result<Pos, string>)
    ensures r.Success? ==> ValidAppt(patients, r.value) && ApptAt(patients, r.value).appointmentId == appointmentId
    ensures r.Failure? <==> forall p :: ValidAppt(patients, p) ==> ApptAt(patients, p).appointmentId != appointmentId
    ensures r.Failure? ==> r.error == "Appointment not found: " + BaseAgent.ProtectPhi(appointmentId)
  {
    match FindInGrid(AppointmentIds(patients), appointmentId)
    case Some(p) => Success(p)
    case None =>
      assert forall p :: ValidAppt(patients, p) ==> AppointmentIds(patients)[p.d][p.s] == ApptAt(patients, p).appointmentId;
      Failure("Appointment not found: " + BaseAgent.ProtectPhi(appointmentId))
  }

  /** Replaces one appointment; everything else stays as it was. */
  function WithAppt(patients: seq<SchedPatient>, p: Pos, a: Appointment): (r: seq<SchedPatient>)
    requires ValidAppt(patients, p)
    ensures |r| == |patients|
    ensures forall d :: 0 <= d < |r| ==>
      r[d].id == patients[d].id && |r[d].appointments| == |patients[d].appointments|
    ensures ApptAt(r, p) == a
    ensures forall q :: ValidAppt(patients, q) && q != p ==> ApptAt(r, q) == ApptAt(patients, q)
  {
    var pat := patients[p.d];
    patients[p.d := pat.(appointments := pat.appointments[p.s := a])]
  }

  // ---------------------------------------------------------------- operations

  /** Frees the slot an appointment pointed to, if it still exists. */
  function Release(doctors: seq<Doctor>, prior: Option<Pos>): (r: seq<Doctor>)
    requires prior.Some? ==> ValidPos(doctors, prior.value)
    ensures |r| == |doctors|
    ensures forall d :: 0 <= d < |r| ==>
      r[d].id == doctors[d].id && r[d].name == doctors[d].name
      && |r[d].availability| == |doctors[d].availability|
    ensures prior.Some? ==> SlotAt(r, prior.value) == Free(SlotAt(doctors, prior.value))
    ensures forall q :: ValidPos(doctors, q) && (prior.None? || q != prior.value) ==> SlotAt(r, q) == SlotAt(doctors, q)
  {
    if prior.Some? then WithSlot(doctors, prior.value, Free(SlotAt(doctors, prior.value))) else doctors
  }

  /** Frees the old slot, then binds the new one to the patient and appointment. */
  function MoveBooking(doctors: seq<Doctor>, prior: Option<Pos>, np: Pos, patientId: string, appointmentId: string)
    : (r: seq<Doctor>)
    requires ValidPos(doctors, np) && (prior.Some? ==> ValidPos(doctors, prior.value))
    ensures ValidPos(r, np)
    ensures SlotAt(r, np).status == Booked && SlotAt(r, np).patientId == Some(patientId)
      && SlotAt(r, np).appointmentId == Some(appointmentId)
    ensures prior.Some? && prior.value != np ==>
      ValidPos(r, prior.value) && SlotAt(r, prior.value) == Free(SlotAt(doctors, prior.value))
    ensures forall q :: ValidPos(doctors, q) && q != np && (prior.None? || q != prior.value) ==>
      ValidPos(r, q) && SlotAt(r, q) == SlotAt(doctors, q)
  {
    var freed := Release(doctors, prior);
    var bound := SlotAt(freed, np).(status := Booked, patientId := Some(patientId), appointmentId := Some(appointmentId));
    WithSlot(freed, np, bound)
  }

  /** The appointment id a booking uses: the one already on the slot, else the fresh one. */
  function BookingId(slot: Slot, freshId: string): (id: string)
    ensures slot.appointmentId.Some? && slot.appointmentId.value != [] ==> id == slot.appointmentId.value
    ensures (slot.appointmentId.None? || slot.appointmentId.value == []) ==> id == freshId
  {
    if slot.appointmentId.Some? && slot.appointmentId.value != [] then slot.appointmentId.value else freshId
  }

  /** `book_appointment`. `freshId` stands for the "A-" + eight hex digits the source draws at
      random. */
  function Book(store: Store, patientId: string, slotId: string, freshId: string): (r: Result<Outcome, string>)
    ensures IndexOfPatient(store.patients, patientId).None? ==> r.Failure? && r.error == "Patient not found: " + BaseAgent.ProtectPhi(patientId)
    ensures IndexOfPatient(store.patients, patientId).Some? && FindSlot(store.doctors, slotId).None? ==>
      r.Failure? && r.error == "Slot not found: " + BaseAgent.ProtectPhi(slotId)
    ensures (IndexOfPatient(store.patients, patientId).Some? && FindSlot(store.doctors, slotId).Some?
             && SlotAt(store.doctors, FindSlot(store.doctors, slotId).value).status == Booked) ==>
      r == Failure(SlotAlreadyBooked)
    ensures r.Success? ==> BookedAsPromised(store, patientId, slotId, freshId, r.value)
  {
    var pi :- RequirePatient(store.patients, patientId);
    var pos :- RequireSlot(store.doctors, slotId);
    var slot := SlotAt(store.doctors, pos);
    if slot.status == Booked then Failure(SlotAlreadyBooked)
    else
      var id := BookingId(slot, freshId);
      var doc := store.doctors[pos.d];
      var appt := Appointment(id, slot.slotId, doc.id, doc.name, slot.start, slot.location, Scheduled);
      var bound := slot.(status := Booked, patientId := Some(patientId), appointmentId := Some(id));
      var pat := store.patients[pi];
      var patients := store.patients[pi := pat.(appointments := pat.appointments + [appt])];
      Success(Outcome(appt, Store(WithSlot(store.doctors, pos, bound), patients)))
  }

  /** What a successful booking promises: the slot is booked for the patient under the
      appointment's id, no other slot changes, and the patient gains exactly that appointment. */
  ghost predicate BookedAsPromised(store: Store, patientId: string, slotId: string, freshId: string, o: Outcome) {
    var pos := FindSlot(store.doctors, slotId);
    var pi := IndexOfPatient(store.patients, patientId);
    && pos.Some? && pi.Some?
    && var before := SlotAt(store.doctors, pos.value);
    && before.status != Booked
    && o.appointment.appointmentId == BookingId(before, freshId)
    && o.appointment.slotId == slotId
    && o.appointment.status == Scheduled
    && o.appointment.datetime == before.start
    && |o.store.doctors| == |store.doctors|
    && ValidPos(o.store.doctors, pos.value)
    && SlotAt(o.store.doctors, pos.value)
       == before.(status := Booked, patientId := Some(patientId), appointmentId := Some(o.appointment.appointmentId))
    && (forall q :: ValidPos(store.doctors, q) && q != pos.value ==>
          ValidPos(o.store.doctors, q) && SlotAt(o.store.doctors, q) == SlotAt(store.doctors, q))
    && |o.store.patients| == |store.patients|
    && o.store.patients[pi.value].appointments == store.patients[pi.value].appointments + [o.appointment]
    && (forall j :: 0 <= j < |store.patients| && j != pi.value ==> o.store.patients[j] == store.patients[j])
  }

  /** No double booking: once a slot is booked, booking it again fails, whoever asks. */
  lemma BookTwiceFails(store: Store, patientId: string, slotId: string, freshId: string,
                       otherPatient: string, otherFresh: string)
    requires Book(store, patientId, slotId, freshId).Success?
    requires IndexOfPatient(store.patients, otherPatient).Some?
    ensures var after := Book(store, patientId, slotId, freshId).value.store;
      Book(after, otherPatient, slotId, otherFresh) == Failure(SlotAlreadyBooked)
  {
    var o := Book(store, patientId, slotId, freshId).value;
    var pos := FindSlot(store.doctors, slotId).value;
    var slot := SlotAt(store.doctors, pos);
    var bound := slot.(status := Booked, patientId := Some(patientId), appointmentId := Some(o.appointment.appointmentId));
    WithSlotKeepsIds(store.doctors, pos, bound);
    assert o.store.doctors == WithSlot(store.doctors, pos, bound);
    assert FindSlot(o.store.doctors, slotId) == Some(pos);
    var k := IndexOfPatient(store.patients, otherPatient).value;
    assert o.store.patients[k].id == otherPatient;
  }

  /** `reschedule_appointment`: every lookup and the booked check come first, so an error changes
      nothing; then the old slot is freed and the new one booked for the same patient and id. */
  function Reschedule(store: Store, appointmentId: string, newSlotId: string): (r: Result<Outcome, string>)
    ensures FindAppointment(store.patients, appointmentId).Failure? ==>
      r == Failure(FindAppointment(store.patients, appointmentId).error)
    ensures FindAppointment(store.patients, appointmentId).Success? && FindSlot(store.doctors, newSlotId).None? ==>
      r.Failure? && r.error == "Slot not found: " + BaseAgent.ProtectPhi(newSlotId)
    ensures (FindAppointment(store.patients, appointmentId).Success? && FindSlot(store.doctors, newSlotId).Some?
             && SlotAt(store.doctors, FindSlot(store.doctors, newSlotId).value).status == Booked) ==>
      r == Failure(RequestedSlotBooked)
    ensures r.Success? ==> RescheduledAsPromised(store, appointmentId, newSlotId, r.value)
  {
    var ap :- FindAppointment(store.patients, appointmentId);
    var appt := ApptAt(store.patients, ap);
    var prior := FindSlotById(store.doctors, appt.slotId);
    var np :- RequireSlot(store.doctors, newSlotId);
    var target := SlotAt(store.doctors, np);
    if target.status == Booked then Failure(RequestedSlotBooked)
    else
      var doc := store.doctors[np.d];
      var moved := appt.(slotId := target.slotId, doctorId := doc.id, doctor := doc.name,
                         datetime := target.start, location := target.location, status := Scheduled);
      var doctors := MoveBooking(store.doctors, prior, np, store.patients[ap.d].id, appointmentId);
      Success(Outcome(moved, Store(doctors, WithAppt(store.patients, ap, moved))))
  }

  ghost predicate RescheduledAsPromised(store: Store, appointmentId: string, newSlotId: string, o: Outcome) {
    var ap := FindAppointment(store.patients, appointmentId);
    var np := FindSlot(store.doctors, newSlotId);
    && ap.Success? && np.Some?
    && var appt := ApptAt(store.patients, ap.value);
    && var prior := FindSlotById(store.doctors, appt.slotId);
    && var target := SlotAt(store.doctors, np.value);
    && target.status != Booked
    && ValidPos(o.store.doctors, np.value)
    && SlotAt(o.store.doctors, np.value).status == Booked
    && SlotAt(o.store.doctors, np.value).patientId == Some(store.patients[ap.value.d].id)
    && SlotAt(o.store.doctors, np.value).appointmentId == Some(appointmentId)
    && (prior.Some? && prior.value != np.value ==>
          ValidPos(o.store.doctors, prior.value) && SlotAt(o.store.doctors, prior.value) == Free(SlotAt(store.doctors, prior.value)))
    && (forall q :: ValidPos(store.doctors, q) && q != np.value && (prior.None? || q != prior.value) ==>
          ValidPos(o.store.doctors, q) && SlotAt(o.store.doctors, q) == SlotAt(store.doctors, q))
    && o.appointment == appt.(slotId := newSlotId, doctorId := store.doctors[np.value.d].id,
         doctor := store.doctors[np.value.d].name, datetime := target.start, location := target.location,
         status := Scheduled)
    && ValidAppt(o.store.patients, ap.value) && ApptAt(o.store.patients, ap.value) == o.appointment
    && (forall q :: ValidAppt(store.patients, q) && q != ap.value ==>
          ValidAppt(o.store.patients, q) && ApptAt(o.store.patients, q) == ApptAt(store.patients, q))
  }

  /** `cancel_appointment`: frees whatever slot the appointment points to and marks it canceled;
      the appointment stays in the patient's list. The appointment's prior status is not checked. */
  function Cancel(store: Store, appointmentId: string): (r: Result<Outcome, string>)
    ensures r.Failure? <==> FindAppointment(store.patients, appointmentId).Failure?
    ensures r.Failure? ==> r.error == "Appointment not found: " + BaseAgent.ProtectPhi(appointmentId)
    ensures r.Success? ==> CanceledAsPromised(store, appointmentId, r.value)
  {
    var ap :- FindAppointment(store.patients, appointmentId);
    var appt := ApptAt(store.patients, ap);
    var prior := FindSlotById(store.doctors, appt.slotId);
    var freed := Release(store.doctors, prior);
    var canceled := appt.(status := Canceled);
    Success(Outcome(canceled, Store(freed, WithAppt(store.patients, ap, canceled))))
  }

  ghost predicate CanceledAsPromised(store: Store, appointmentId: string, o: Outcome) {
    var ap := FindAppointment(store.patients, appointmentId);
    && ap.Success?
    && var appt := ApptAt(store.patients, ap.value);
    && var prior := FindSlotById(store.doctors, appt.slotId);
    && o.appointment == appt.(status := Canceled)
    && ValidAppt(o.store.patients, ap.value) && ApptAt(o.store.patients, ap.value) == o.appointment
    && (forall q :: ValidAppt(store.patients, q) && q != ap.value ==>
          ValidAppt(o.store.patients, q) && ApptAt(o.store.patients, q) == ApptAt(store.patients, q))
    && (prior.Some? ==>
          ValidPos(o.store.doctors, prior.value) && SlotAt(o.store.doctors, prior.value) == Free(SlotAt(store.doctors, prior.value)))
    && (forall q :: ValidPos(store.doctors, q) && (prior.None? || q != prior.value) ==>
          ValidPos(o.store.doctors, q) && SlotAt(o.store.doctors, q) == SlotAt(store.doctors, q))
  }
}
