/** `_route_intent` and its handlers: the reply to an understood request, with what it does to
    the conversation state and the schedule. The patient records and the FAQ are only read. */
module Routing {
  import opened Wrappers
  import opened Text
  import opened Values
  import opened BaseAgent
  import opened ConversationState
  import opened DialogueTypes
  import Records
  import Scheduling
  import Knowledge
  import Nlu

  /** The intents that need a verified patient before they are routed. */
  const PatientRequired: set<string> := {Nlu.ScheduleIntent, Nlu.RescheduleIntent, Nlu.CancelIntent, Nlu.InfoQueryIntent}

  const DefaultDoctor := "Dr. Maya Singh"

  /** The fixed replies of the handlers. */
  datatype Line = NoLabs | Rescheduled | RescheduleNeeds | CanHelp

  /** What each fixed reply reads. */
  function Say(l: Line): string {
    match l
    case NoLabs => "No lab results found."
    case Rescheduled => "Your appointment has been rescheduled."
    case RescheduleNeeds => "To reschedule, I'll need your appointment ID and the new time you'd prefer."
    case CanHelp => "I can help with appointments, records, or clinic questions. How can I assist?"
  }

  const UnhandledWarning := "Unhandled intent"

  /** A lab interpretation mentioning any of these suggests a follow-up. */
  const FollowUpWords := ["recommend", "recommendation", "elevated", "above", "above goal", "suggest"]

  function NoSlotsText(name: string, doctor: string): string {
    "I'm sorry, " + name + ", but " + doctor + " doesn't have any available appointments "
    + "right now. Would you like me to check with a different provider?"
  }

  function CancelNeedsText(name: string): string {
    "I'd be happy to help cancel your appointment, " + name
    + ". Could you tell me which appointment you'd like to cancel?"
  }

  /** What routing produced: a reply with the state and schedule after it, or an exception. */
  datatype RouteOutcome =
    | Routed(result: AgentResult, state: State, schedule: Scheduling.Store)
    | RouteRaised(error: string)

  // ---------------------------------------------------------------- serialisation

  function LabValue(l: Records.LabResult): Value {
    VMap(map["test" := VStr(l.test), "interpretation" := OptStr(l.interpretation)])
  }

  function LabsValue(labs: seq<Records.LabResult>): (v: Value)
    ensures v.VList? && |v.items| == |labs|
  {
    VList(seq(|labs|, i requires 0 <= i < |labs| => LabValue(labs[i])))
  }

  /** A slot as a dictionary. A free slot has had its "patient_id" and "appointment_id" popped,
      so an absent booking is an absent key rather than `None`. */
  function SlotValue(s: Scheduling.Slot): (m: map<string, Value>)
    ensures "patient_id" in m <==> s.patientId.Some?
    ensures "appointment_id" in m <==> s.appointmentId.Some?
    ensures s.patientId.Some? ==> m["patient_id"] == VStr(s.patientId.value)
    ensures s.appointmentId.Some? ==> m["appointment_id"] == VStr(s.appointmentId.value)
  {
    var base := map["slot_id" := VStr(s.slotId), "start" := VInt(s.start), "location" := VStr(s.location),
                    "status" := VStr(s.status)];
    var booked := if s.patientId.Some? then base["patient_id" := VStr(s.patientId.value)] else base;
    if s.appointmentId.Some? then booked["appointment_id" := VStr(s.appointmentId.value)] else booked
  }

  /** An offered slot: the slot's own fields merged with its doctor's name and id. */
  function OfferValue(o: Scheduling.SlotOffer): Value {
    VMap(SlotValue(o.slot)["doctor" := VStr(o.doctorName)]["doctor_id" := VStr(o.doctorId)])
  }

  function OffersValue(offers: seq<Scheduling.SlotOffer>): (v: Value)
    ensures v.VList? && |v.items| == |offers|
  {
    VList(seq(|offers|, i requires 0 <= i < |offers| => OfferValue(offers[i])))
  }

  function AppointmentValue(a: Scheduling.Appointment): Value {
    VMap(map["appointment_id" := VStr(a.appointmentId), "slot_id" := VStr(a.slotId),
             "doctor_id" := VStr(a.doctorId), "doctor" := VStr(a.doctor), "datetime" := VInt(a.datetime),
             "location" := VStr(a.location), "status" := VStr(a.status)])
  }

  /** A reply whose output is `extras` with the text added. */
  function Respond(ok: bool, text: string, extras: map<string, Value>, metadata: map<string, Value>, now: string)
    : (r: AgentResult)
    ensures r.IsSuccess() <==> ok
    ensures r.IsFailure() <==> !ok
    ensures r.output == extras["text" := VStr(text)] && TextOf(r.output) == text
    ensures forall k :: k in metadata ==> Get(r.metadata, k) == metadata[k]
  {
    var output := extras["text" := VStr(text)];
    if ok then SuccessResult(output, metadata, now) else FailureResult(text, output, metadata, now)
  }

  // ---------------------------------------------------------------- greeting

  /** The first name used in replies: "there" for an unknown patient; a patient on file whose name
      has no word makes `split()[0]` raise. */
  function Greeting(records: seq<Records.Patient>, patientId: Option<string>): (r: Result<string, string>)
    ensures (patientId.None? || Records.FindById(records, patientId.value).None?) ==> r == Success("there")
    ensures patientId.Some? && Records.FindById(records, patientId.value).Some? ==>
      var name := Records.FindById(records, patientId.value).value.name;
      && (Blank(name) <==> r.Failure?)
      && (r.Failure? ==> r.error == IndexErrorMessage)
      && (r.Success? ==> r.value != [] && Some(r.value) == FirstWord(name))
  {
    if patientId.None? then Success("there")
    else
      match Records.FindById(records, patientId.value)
      case None => Success("there")
      case Some(p) =>
        match FirstWord(p.name)
        case None => Failure(IndexErrorMessage)
        case Some(first) => Success(first)
  }

  // ---------------------------------------------------------------- routes

  /** `_route_intent`. The patient-bound intents are routed only once a patient id is bound (the
      verification gate of the turn sees to it). */
  function Route(intent: string, s: State, input: TurnInput, world: World, oracles: Oracles): (r: RouteOutcome)
    requires intent in PatientRequired ==> s.patientId.Some?
    ensures intent == Nlu.FaqIntent ==>
      r == Routed(Knowledge.Execute(world.faq, input.utterance, oracles.now), s, world.schedule)
    ensures intent == Nlu.InfoQueryIntent ==> r == InfoQuery(s, world.records, oracles, world.schedule)
    ensures intent == Nlu.ScheduleIntent ==> r == Schedule(s, input, world, oracles)
    ensures intent == Nlu.RescheduleIntent ==> r == RescheduleRoute(s, input, world.schedule, oracles.now)
    ensures intent == Nlu.CancelIntent ==> r == CancelRoute(s, input, world, oracles)
    ensures intent !in PatientRequired && intent != Nlu.FaqIntent ==> r == Unhandled(intent, s, world.schedule, oracles.now)
  {
    if intent == Nlu.FaqIntent then Routed(Knowledge.Execute(world.faq, input.utterance, oracles.now), s, world.schedule)
    else if intent == Nlu.InfoQueryIntent then InfoQuery(s, world.records, oracles, world.schedule)
    else if intent == Nlu.ScheduleIntent then Schedule(s, input, world, oracles)
    else if intent == Nlu.RescheduleIntent then RescheduleRoute(s, input, world.schedule, oracles.now)
    else if intent == Nlu.CancelIntent then CancelRoute(s, input, world, oracles)
    else Unhandled(intent, s, world.schedule, oracles.now)
  }

  /** The fallback for any other intent: PARTIAL, with the intent in the metadata. */
  function Unhandled(intent: string, s: State, schedule: Scheduling.Store, now: string): (r: RouteOutcome)
    ensures r.Routed? && r.state == s && r.schedule == schedule
    ensures r.result.status == PARTIAL && r.result.warnings == [UnhandledWarning] && r.result.errors == []
    ensures TextOf(r.result.output) == Say(CanHelp)
    ensures Get(r.result.metadata, "intent") == VStr(intent)
  {
    var output := map["text" := VStr(Say(CanHelp))];
    assert TextOf(output) == Say(CanHelp);
    Routed(MakeResult(PARTIAL, output, map["intent" := VStr(intent)], [], [UnhandledWarning], now), s, schedule)
  }

  /** Some lab interpretation mentions a reason for a follow-up. */
  predicate FollowUpSuggested(labs: seq<Records.LabResult>) {
    exists i :: 0 <= i < |labs| && ContainsAny(Lower(labs[i].interpretation.GetOr("")), FollowUpWords)
  }

  /** The lab-results answer: the explanation, the results, and a follow-up prompt when an
      interpretation calls for one and the generator produced one. */
  function LabsReply(labs: seq<Records.LabResult>, oracles: Oracles): (r: AgentResult)
    requires labs != []
    ensures r.IsSuccess()
    ensures TextOf(r.output) == oracles.generated && Get(r.output, "data") == LabsValue(labs)
    ensures ("follow_up_prompt" in r.output) <==> FollowUpSuggested(labs) && oracles.followUp != []
    ensures "follow_up_prompt" in r.output ==> r.output["follow_up_prompt"] == VStr(oracles.followUp)
    ensures Get(r.metadata, "follow_up_suggested") == VBool(FollowUpSuggested(labs))
  {
    var suggested := FollowUpSuggested(labs);
    var base := map["data" := LabsValue(labs)];
    var extras := if suggested && oracles.followUp != [] then base["follow_up_prompt" := VStr(oracles.followUp)] else base;
    Respond(true, oracles.generated, extras, map["follow_up_suggested" := VBool(suggested)], oracles.now)
  }

  /** InfoQuery: the bound patient's lab results, explained. An unknown patient raises the records
      agent's error; the greeting is worked out before the results are looked at. */
  function InfoQuery(s: State, records: seq<Records.Patient>, oracles: Oracles, schedule: Scheduling.Store): (r: RouteOutcome)
    requires s.patientId.Some?
    ensures Records.FindById(records, s.patientId.value).None? ==>
      r == RouteRaised(Records.GetLabResults(records, s.patientId.value).error)
    ensures Records.FindById(records, s.patientId.value).Some? ==>
      var p := Records.FindById(records, s.patientId.value).value;
      && (Blank(p.name) ==> r == RouteRaised(IndexErrorMessage))
      && (!Blank(p.name) ==> r.Routed? && r.state == s && r.schedule == schedule && r.result.IsSuccess())
      && (!Blank(p.name) && p.labResults == [] ==>
            TextOf(r.result.output) == Say(NoLabs) && Get(r.result.output, "data") == VList([]))
      && (!Blank(p.name) && p.labResults != [] ==> r.result == LabsReply(p.labResults, oracles))
  {
    match Records.GetLabResults(records, s.patientId.value)
    case Failure(e) => RouteRaised(e)
    case Success(labs) =>
      match Greeting(records, s.patientId)
      case Failure(e) => RouteRaised(e)
      case Success(_) =>
        if labs == [] then Routed(Respond(true, Say(NoLabs), map["data" := VList([])], map[], oracles.now), s, schedule)
        else Routed(LabsReply(labs, oracles), s, schedule)
  }

  /** The doctor to offer: the request's when given, else the one remembered in the slots, else
      the default doctor. */
  function DoctorOf(s: State, input: TurnInput): string {
    if Given(input.doctor) then input.doctor.value
    else if "doctor" in s.slots then s.slots["doctor"]
    else DefaultDoctor
  }

  /** ScheduleAppointment: book the chosen slot, or offer the doctor's open slots. */
  function Schedule(s: State, input: TurnInput, world: World, oracles: Oracles): (r: RouteOutcome)
    requires s.patientId.Some?
    ensures Greeting(world.records, s.patientId).Failure? ==> r == RouteRaised(IndexErrorMessage)
    ensures Greeting(world.records, s.patientId).Success? && Given(input.slotId) ==>
      r == BookRoute(s, input.slotId.value, world.schedule, oracles)
    ensures Greeting(world.records, s.patientId).Success? && !Given(input.slotId) ==>
      r == OfferRoute(s, Greeting(world.records, s.patientId).value, DoctorOf(s, input), world.schedule, oracles)
  {
    match Greeting(world.records, s.patientId)
    case Failure(e) => RouteRaised(e)
    case Success(name) =>
      if Given(input.slotId) then BookRoute(s, input.slotId.value, world.schedule, oracles)
      else OfferRoute(s, name, DoctorOf(s, input), world.schedule, oracles)
  }

  /** A chosen slot is booked for the bound patient; a refused booking raises. */
  function BookRoute(s: State, slotId: string, schedule: Scheduling.Store, oracles: Oracles): (r: RouteOutcome)
    requires s.patientId.Some?
    ensures var b := Scheduling.Book(schedule, s.patientId.value, slotId, oracles.freshAppointmentId);
      && (b.Failure? ==> r == RouteRaised(b.error))
      && (b.Success? ==> r.Routed? && r.state == s && r.schedule == b.value.store && r.result.IsSuccess()
                         && TextOf(r.result.output) == oracles.generated
                         && Get(r.result.output, "appointment") == AppointmentValue(b.value.appointment))
  {
    match Scheduling.Book(schedule, s.patientId.value, slotId, oracles.freshAppointmentId)
    case Failure(e) => RouteRaised(e)
    case Success(o) =>
      Routed(Respond(true, oracles.generated, map["appointment" := AppointmentValue(o.appointment)], map[], oracles.now),
             s, o.store)
  }

  /** Without a chosen slot: the doctor's open slots, remembering the doctor; none is a FAILURE
      that suggests another provider; an unknown doctor raises. */
  function OfferRoute(s: State, name: string, doctor: string, schedule: Scheduling.Store, oracles: Oracles): (r: RouteOutcome)
    ensures var f := Scheduling.FindAvailableSlots(schedule.doctors, doctor, None);
      && (f.Failure? ==> r == RouteRaised(f.error))
      && (f.Success? && f.value == [] ==>
            r.Routed? && r.state == s && r.schedule == schedule && r.result.IsFailure()
            && TextOf(r.result.output) == NoSlotsText(name, doctor))
      && (f.Success? && f.value != [] ==>
            r.Routed? && r.state == s.UpdateSlots(map["doctor" := Some(doctor)]) && r.schedule == schedule
            && r.result.IsSuccess() && TextOf(r.result.output) == oracles.generated
            && Get(r.result.output, "options") == OffersValue(f.value))
  {
    match Scheduling.FindAvailableSlots(schedule.doctors, doctor, None)
    case Failure(e) => RouteRaised(e)
    case Success(offers) =>
      if offers == [] then
        Routed(Respond(false, NoSlotsText(name, doctor), map[], map[], oracles.now), s, schedule)
      else
        Routed(Respond(true, oracles.generated, map["options" := OffersValue(offers)], map[], oracles.now),
               s.UpdateSlots(map["doctor" := Some(doctor)]), schedule)
  }

  /** RescheduleAppointment: needs both the appointment id and the new slot. */
  function RescheduleRoute(s: State, input: TurnInput, schedule: Scheduling.Store, now: string): (r: RouteOutcome)
    ensures !(Given(input.appointmentId) && Given(input.newSlot)) ==>
      r.Routed? && r.state == s && r.schedule == schedule && r.result.IsFailure()
      && TextOf(r.result.output) == Say(RescheduleNeeds)
    ensures Given(input.appointmentId) && Given(input.newSlot) ==>
      var m := Scheduling.Reschedule(schedule, input.appointmentId.value, input.newSlot.value);
      && (m.Failure? ==> r == RouteRaised(m.error))
      && (m.Success? ==> r.Routed? && r.state == s && r.schedule == m.value.store && r.result.IsSuccess()
                         && TextOf(r.result.output) == Say(Rescheduled)
                         && Get(r.result.output, "appointment") == AppointmentValue(m.value.appointment))
  {
    if Given(input.appointmentId) && Given(input.newSlot) then
      match Scheduling.Reschedule(schedule, input.appointmentId.value, input.newSlot.value)
      case Failure(e) => RouteRaised(e)
      case Success(o) =>
        Routed(Respond(true, Say(Rescheduled), map["appointment" := AppointmentValue(o.appointment)], map[], now),
               s, o.store)
    else Routed(Respond(false, Say(RescheduleNeeds), map[], map[], now), s, schedule)
  }

  /** CancelAppointment: the greeting comes first, then the appointment id is asked for or the
      appointment canceled. */
  function CancelRoute(s: State, input: TurnInput, world: World, oracles: Oracles): (r: RouteOutcome)
    ensures Greeting(world.records, s.patientId).Failure? ==> r == RouteRaised(IndexErrorMessage)
    ensures Greeting(world.records, s.patientId).Success? && !Given(input.appointmentId) ==>
      r.Routed? && r.state == s && r.schedule == world.schedule && r.result.IsFailure()
      && TextOf(r.result.output) == CancelNeedsText(Greeting(world.records, s.patientId).value)
    ensures Greeting(world.records, s.patientId).Success? && Given(input.appointmentId) ==>
      var c := Scheduling.Cancel(world.schedule, input.appointmentId.value);
      && (c.Failure? ==> r == RouteRaised(c.error))
      && (c.Success? ==> r.Routed? && r.state == s && r.schedule == c.value.store && r.result.IsSuccess()
                         && TextOf(r.result.output) == oracles.generated
                         && Get(r.result.output, "appointment") == AppointmentValue(c.value.appointment))
  {
    match Greeting(world.records, s.patientId)
    case Failure(e) => RouteRaised(e)
    case Success(name) =>
      if !Given(input.appointmentId) then
        Routed(Respond(false, CancelNeedsText(name), map[], map[], oracles.now), s, world.schedule)
      else
        match Scheduling.Cancel(world.schedule, input.appointmentId.value)
        case Failure(e) => RouteRaised(e)
        case Success(o) =>
          Routed(Respond(true, oracles.generated, map["appointment" := AppointmentValue(o.appointment)], map[], oracles.now),
                 s, o.store)
  }

  // ---------------------------------------------------------------- properties

  /** Only booking, rescheduling and cancelling touch the schedule, and only offering slots
      touches the state (it remembers the doctor). */
  lemma {:induction false} RouteFrame(intent: string, s: State, input: TurnInput, world: World, oracles: Oracles)
    requires intent in PatientRequired ==> s.patientId.Some?
    ensures var r := Route(intent, s, input, world, oracles);
      && (r.Routed? && r.schedule != world.schedule ==>
            intent == Nlu.ScheduleIntent || intent == Nlu.RescheduleIntent || intent == Nlu.CancelIntent)
      && (r.Routed? && r.state != s ==>
            intent == Nlu.ScheduleIntent && r.state == s.UpdateSlots(map["doctor" := Some(DoctorOf(s, input))]))
  {
    var r := Route(intent, s, input, world, oracles);
    if intent == Nlu.ScheduleIntent {
      assert r == Schedule(s, input, world, oracles);
    } else if intent == Nlu.CancelIntent {
      assert r == CancelRoute(s, input, world, oracles);
    } else if intent == Nlu.RescheduleIntent {
      assert r == RescheduleRoute(s, input, world.schedule, oracles.now);
    } else if intent == Nlu.InfoQueryIntent {
      assert r == InfoQuery(s, world.records, oracles, world.schedule);
    }
  }

  /** A booking through the dialogue is the scheduling agent's booking: the chosen slot ends up
      booked for the bound patient, and booking it again in the next turn raises. */
  lemma {:induction false} BookingThroughDialogue(s: State, input: TurnInput, world: World, oracles: Oracles,
                                                  next: Oracles)
    requires s.patientId.Some? && Given(input.slotId)
    requires Route(Nlu.ScheduleIntent, s, input, world, oracles).Routed?
    ensures var r := Route(Nlu.ScheduleIntent, s, input, world, oracles);
      var pos := Scheduling.FindSlot(world.schedule.doctors, input.slotId.value);
      && pos.Some? && Scheduling.ValidPos(r.schedule.doctors, pos.value)
      && Scheduling.SlotAt(r.schedule.doctors, pos.value).status == Scheduling.Booked
      && Scheduling.SlotAt(r.schedule.doctors, pos.value).patientId == s.patientId
      && Route(Nlu.ScheduleIntent, s, input, world.(schedule := r.schedule), next)
         == RouteRaised(Scheduling.SlotAlreadyBooked)
  {
    var r := Route(Nlu.ScheduleIntent, s, input, world, oracles);
    var pid := s.patientId.value;
    var slotId := input.slotId.value;
    assert r == BookRoute(s, slotId, world.schedule, oracles);
    var b := Scheduling.Book(world.schedule, pid, slotId, oracles.freshAppointmentId);
    assert b.Success?;
    assert Scheduling.BookedAsPromised(world.schedule, pid, slotId, oracles.freshAppointmentId, b.value);
    Scheduling.BookTwiceFails(world.schedule, pid, slotId, oracles.freshAppointmentId, pid, next.freshAppointmentId);
    var w2 := world.(schedule := r.schedule);
    assert Route(Nlu.ScheduleIntent, s, input, w2, next) == Schedule(s, input, w2, next);
  }
}
