/** The multi-turn registration of a new patient: an offer after a failed verification, then the
    name, date of birth, phone and e-mail, one per turn, ending in a new record. */
module Registration {
  import opened Wrappers
  import opened Text
  import opened Values
  import opened BaseAgent
  import opened ConversationState
  import opened Validation
  import opened DialogueTypes
  import Records
  import Nlu

  /** Any of these inside the lower-cased answer accepts the offer. */
  const AcceptWords := ["yes", "sure", "okay", "yeah", "yep", "please"]

  /** The fixed lines the registration flow says. */
  datatype Line = Accepted | Declined | AskDob | NoDate | AlreadyRegistered | AskPhone | AskEmail | UnknownStep

  /** What each fixed line reads. */
  function Say(l: Line): string {
    match l
    case Accepted => "Great! What's your phone number?"
    case Declined => "No problem. If you'd like to speak with someone, please call 415-555-0100."
    case AskDob => "Thanks. What's your date of birth?"
    case NoDate => "I didn't catch that date. Please provide your date of birth."
    case AlreadyRegistered => "You're already registered! How can I help you?"
    case AskPhone => "Perfect. What's your phone number?"
    case AskEmail => "Great. What's your email address?"
    case UnknownStep => "Something went wrong. How can I help you?"
  }

  const ErrorPrefix := "Registration error: "

  function RegisteredText(firstName: string, currentIntent: Option<string>): string {
    if currentIntent == Some(Nlu.ScheduleIntent) then
      "Perfect, " + firstName + "! You're registered. Let's schedule your appointment."
    else "Welcome, " + firstName + "! You're all registered. How can I help?"
  }

  /** One registration turn: whether it succeeded, what it says, the state and the patient list
      it leaves, and the id of a patient it created. */
  datatype RegReply = RegReply(
    ok: bool,
    text: string,
    state: State,
    records: seq<Records.Patient>,
    created: Option<string>)

  /** The reply as the agent result `_handle_registration_flow` returns: SUCCESS or FAILURE with
      the text, the serialised state and, after a creation, the new id. */
  function ResultOf(r: RegReply, now: string): (a: AgentResult)
    ensures a.IsSuccess() <==> r.ok
    ensures a.IsFailure() <==> !r.ok
    ensures a.output.Keys == {"text", "state"} + (if r.created.Some? then {"patient_id"} else {})
    ensures a.output["text"] == VStr(r.text) && TextOf(a.output) == r.text
    ensures r.created.Some? ==> a.output["patient_id"] == VStr(r.created.value)
  {
    var base := map["text" := VStr(r.text), "state" := StateValue(r.state)];
    var output := if r.created.Some? then base["patient_id" := VStr(r.created.value)] else base;
    if r.ok then SuccessResult(output, map[], now) else FailureResult(r.text, output, map[], now)
  }

  /** A refusal that leaves everything as it was. */
  function Refuse(text: string, s: State, records: seq<Records.Patient>): (r: RegReply)
    ensures !r.ok && r.text == text && r.state == s && r.records == records && r.created.None?
  {
    RegReply(false, text, s, records, None)
  }

  /** `_handle_registration_flow`: dispatch on the pending step. */
  function Register(s: State, input: TurnInput, records: seq<Records.Patient>, fuzzyDob: Option<string>): (r: RegReply)
    ensures s.step == RegOffered ==> r == Offered(s, input.utterance, records)
    ensures s.step == CollectingName ==> r == CollectName(s, input, records)
    ensures s.step == CollectingDob ==> r == CollectDob(s, input, records, fuzzyDob)
    ensures s.step == CollectingPhone ==> r == CollectPhone(s, input.utterance, records)
    ensures s.step == CollectingEmail ==> r == CollectEmail(s, input.utterance, records)
    ensures !(s.step.RegOffered? || s.step.CollectingName? || s.step.CollectingDob?
              || s.step.CollectingPhone? || s.step.CollectingEmail?) ==>
      && !r.ok && r.text == Say(UnknownStep) && r.records == records && r.created.None?
      && r.state == s.ClearRegistrationData().SetStep(NoStep)
  {
    match s.step
    case RegOffered => Offered(s, input.utterance, records)
    case CollectingName => CollectName(s, input, records)
    case CollectingDob => CollectDob(s, input, records, fuzzyDob)
    case CollectingPhone => CollectPhone(s, input.utterance, records)
    case CollectingEmail => CollectEmail(s, input.utterance, records)
    case _ => RegReply(false, Say(UnknownStep), s.ClearRegistrationData().SetStep(NoStep), records, None)
  }

  /** The offer: any accepting word goes straight to the phone number (the name and date of birth
      are already held); anything else drops the registration data. */
  function Offered(s: State, utterance: string, records: seq<Records.Patient>): (r: RegReply)
    ensures r.ok && r.records == records && r.created.None?
    ensures ContainsAny(Lower(utterance), AcceptWords) ==>
      r.state == s.SetStep(CollectingPhone) && r.text == Say(Accepted)
    ensures !ContainsAny(Lower(utterance), AcceptWords) ==>
      r.state == s.ClearRegistrationData().SetStep(NoStep) && r.text == Say(Declined)
  {
    if ContainsAny(Lower(utterance), AcceptWords) then RegReply(true, Say(Accepted), s.SetStep(CollectingPhone), records, None)
    else RegReply(true, Say(Declined), s.ClearRegistrationData().SetStep(NoStep), records, None)
  }

  /** The name: the explicit `patient_name` input when present, otherwise the stripped answer. */
  function CollectName(s: State, input: TurnInput, records: seq<Records.Patient>): (r: RegReply)
    ensures var name := if input.patientName.Some? then input.patientName.value else Strip(input.utterance);
      && (r.ok <==> ValidateName(name).Valid?)
      && (r.ok ==> r.state == s.SetRegistrationField("name", Strip(name)).SetStep(CollectingDob)
                   && r.text == Say(AskDob))
      && (!r.ok ==> r == Refuse(ValidateName(name).message, s, records))
    ensures r.records == records && r.created.None?
  {
    var name := if input.patientName.Some? then input.patientName.value else Strip(input.utterance);
    match ValidateName(name)
    case Invalid(m) => Refuse(m, s, records)
    case Valid(cleaned) => RegReply(true, Say(AskDob), s.SetRegistrationField("name", cleaned).SetStep(CollectingDob), records, None)
  }

  /** The date of birth to use: the explicit `dob` input when given, otherwise what the fuzzy date
      parser made of the answer. */
  function DobOf(input: TurnInput, fuzzyDob: Option<string>): Option<string> {
    if Given(input.dob) then input.dob else fuzzyDob
  }

  /** The date of birth. A name and date already on file binds that patient and ends registration. */
  function CollectDob(s: State, input: TurnInput, records: seq<Records.Patient>, fuzzyDob: Option<string>): (r: RegReply)
    ensures r.records == records && r.created.None?
    ensures DobOf(input, fuzzyDob).None? ==> r == Refuse(Say(NoDate), s, records)
    ensures DobOf(input, fuzzyDob).Some? ==> r.ok
    ensures DobOf(input, fuzzyDob).Some? ==>
      var dob := DobOf(input, fuzzyDob).value;
      var found := Records.FindByDob(records, s.GetRegistrationField("name").GetOr(""), dob);
      && (found.Some? ==> r.state == s.SetPatient(found.value.id).ClearRegistrationData().SetStep(NoStep)
                          && r.text == Say(AlreadyRegistered))
      && (found.None? ==> r.state == s.SetRegistrationField("dob", dob).SetStep(CollectingPhone)
                          && r.text == Say(AskPhone))
  {
    match DobOf(input, fuzzyDob)
    case None => Refuse(Say(NoDate), s, records)
    case Some(dob) =>
      var name := s.GetRegistrationField("name").GetOr("");
      if Records.CheckDuplicate(records, name, dob) then
        var p := Records.FindByDob(records, name, dob).value;
        RegReply(true, Say(AlreadyRegistered), s.SetPatient(p.id).ClearRegistrationData().SetStep(NoStep), records, None)
      else RegReply(true, Say(AskPhone), s.SetRegistrationField("dob", dob).SetStep(CollectingPhone), records, None)
  }

  /** The phone number, kept in its normalised form. */
  function CollectPhone(s: State, utterance: string, records: seq<Records.Patient>): (r: RegReply)
    ensures r.records == records && r.created.None?
    ensures r.ok <==> ValidatePhone(Strip(utterance)).Valid?
    ensures r.ok ==> r.state == s.SetRegistrationField("phone", ValidatePhone(Strip(utterance)).value).SetStep(CollectingEmail)
                     && r.text == Say(AskEmail)
    ensures !r.ok ==> r == Refuse(ValidatePhone(Strip(utterance)).message, s, records)
  {
    match ValidatePhone(Strip(utterance))
    case Invalid(m) => Refuse(m, s, records)
    case Valid(phone) => RegReply(true, Say(AskEmail), s.SetRegistrationField("phone", phone).SetStep(CollectingEmail), records, None)
  }

  /** The registration fields handed to `create_patient`; a missing one is passed as nothing. */
  function Field(s: State, field: string): string {
    s.GetRegistrationField(field).GetOr("")
  }

  /** The e-mail, then the record itself. A refusal by the records agent is reported with its
      reason and changes nothing. */
  function CollectEmail(s: State, utterance: string, records: seq<Records.Patient>): (r: RegReply)
    ensures ValidateEmail(Strip(utterance)).Invalid? ==>
      r == Refuse(ValidateEmail(Strip(utterance)).message, s, records)
    ensures ValidateEmail(Strip(utterance)).Valid? ==>
      var c := Records.CreatePatient(records, Field(s, "name"), Field(s, "dob"), Field(s, "phone"),
                                     ValidateEmail(Strip(utterance)).value);
      && (c.Failure? ==> r == Refuse(ErrorPrefix + c.error, s, records))
      && (c.Success? ==> r.ok && r.records == c.value.patients && r.created == Some(c.value.patient.id)
                         && r.state == s.SetPatient(c.value.patient.id).ClearRegistrationData().SetStep(NoStep)
                         && FirstWord(c.value.patient.name).Some?
                         && r.text == RegisteredText(FirstWord(c.value.patient.name).value, s.currentIntent))
  {
    match ValidateEmail(Strip(utterance))
    case Invalid(m) => Refuse(m, s, records)
    case Valid(email) =>
      var c := Records.CreatePatient(records, Field(s, "name"), Field(s, "dob"), Field(s, "phone"), email);
      if c.Failure? then Refuse(ErrorPrefix + c.error, s, records)
      else
        CreatedHasFirstWord(records, Field(s, "name"), Field(s, "dob"), Field(s, "phone"), email);
        var p := c.value.patient;
        RegReply(true, RegisteredText(FirstWord(p.name).value, s.currentIntent),
                 s.SetPatient(p.id).ClearRegistrationData().SetStep(NoStep), c.value.patients, Some(p.id))
  }

  /** The greeting after a creation can always name the patient: the stored name passed validation. */
  lemma CreatedHasFirstWord(records: seq<Records.Patient>, name: string, dob: string, phone: string, email: string)
    requires Records.CreatePatient(records, name, dob, phone, email).Success?
    ensures FirstWord(Records.CreatePatient(records, name, dob, phone, email).value.patient.name).Some?
  {
    NamedPatientHasFirstWord(name);
  }

  /** A name that passes validation keeps a first word once stripped. */
  lemma NamedPatientHasFirstWord(name: string)
    ensures ValidateName(name).Valid? ==> !Blank(Strip(name))
  {
    if ValidateName(name).Valid? {
      var t := Strip(name);
      assert !IsSpace(t[0]);
    }
  }

  // ---------------------------------------------------------------- properties

  /** The parts of the conversation a registration turn never touches. */
  predicate KeepsContext(s: State, t: State) {
    t.history == s.history && t.currentIntent == s.currentIntent && t.retryCount == s.retryCount
  }

  /** Leaving the registration steps always drops the registration data. */
  predicate ClearedOnExit(t: State) {
    t.step == NoStep ==> t.registrationData == map[]
  }

  lemma OfferedShape(s: State, utterance: string, records: seq<Records.Patient>)
    ensures var t := Offered(s, utterance, records).state;
      KeepsContext(s, t) && ClearedOnExit(t) && (t.step == CollectingPhone || t.step == NoStep)
  {
  }

  lemma CollectNameShape(s: State, input: TurnInput, records: seq<Records.Patient>)
    requires s.step == CollectingName
    ensures var t := CollectName(s, input, records).state;
      KeepsContext(s, t) && (t.step == CollectingName || t.step == CollectingDob)
  {
  }

  /** Binding a patient found on file leaves the registration steps with the data dropped. */
  lemma BindKeepsContext(s: State, id: string)
    ensures var t := s.SetPatient(id).ClearRegistrationData().SetStep(NoStep);
      KeepsContext(s, t) && ClearedOnExit(t) && t.step == NoStep
  {
    var u := s.SetPatient(id).ClearRegistrationData();
    assert KeepsContext(s, u);
  }

  lemma CollectDobShape(s: State, input: TurnInput, records: seq<Records.Patient>, fuzzyDob: Option<string>)
    requires s.step == CollectingDob
    ensures var t := CollectDob(s, input, records, fuzzyDob).state;
      KeepsContext(s, t) && ClearedOnExit(t)
      && (t.step == CollectingDob || t.step == CollectingPhone || t.step == NoStep)
  {
    var r := CollectDob(s, input, records, fuzzyDob);
    match DobOf(input, fuzzyDob)
    case None =>
      assert r.state == s;
    case Some(dob) =>
      var found := Records.FindByDob(records, s.GetRegistrationField("name").GetOr(""), dob);
      if found.Some? {
        BindKeepsContext(s, found.value.id);
      } else {
        assert r.state == s.SetRegistrationField("dob", dob).SetStep(CollectingPhone);
      }
  }

  lemma CollectPhoneShape(s: State, utterance: string, records: seq<Records.Patient>)
    requires s.step == CollectingPhone
    ensures var t := CollectPhone(s, utterance, records).state;
      KeepsContext(s, t) && (t.step == CollectingPhone || t.step == CollectingEmail)
  {
  }

  lemma CollectEmailShape(s: State, utterance: string, records: seq<Records.Patient>)
    requires s.step == CollectingEmail
    ensures var t := CollectEmail(s, utterance, records).state;
      KeepsContext(s, t) && ClearedOnExit(t) && (t.step == CollectingEmail || t.step == NoStep)
  {
  }

  /** Registration only moves forward along name, date of birth, phone, e-mail; it stays on the
      same step after a refusal, and leaves the registration steps only by finishing, binding a
      patient, declining or failing. */
  lemma StepsAdvance(s: State, input: TurnInput, records: seq<Records.Patient>, fuzzyDob: Option<string>)
    ensures var r := Register(s, input, records, fuzzyDob);
      && (s.step == RegOffered ==> r.state.step == CollectingPhone || r.state.step == NoStep)
      && (s.step == CollectingName ==> r.state.step == CollectingName || r.state.step == CollectingDob)
      && (s.step == CollectingDob ==> r.state.step == CollectingDob || r.state.step == CollectingPhone || r.state.step == NoStep)
      && (s.step == CollectingPhone ==> r.state.step == CollectingPhone || r.state.step == CollectingEmail)
      && (s.step == CollectingEmail ==> r.state.step == CollectingEmail || r.state.step == NoStep)
      && (r.state.step == NoStep ==> r.state.registrationData == map[])
  {
    match s.step
    case RegOffered => OfferedShape(s, input.utterance, records);
    case CollectingName => CollectNameShape(s, input, records);
    case CollectingDob => CollectDobShape(s, input, records, fuzzyDob);
    case CollectingPhone => CollectPhoneShape(s, input.utterance, records);
    case CollectingEmail => CollectEmailShape(s, input.utterance, records);
    case _ =>
  }

  /** Registration keeps the conversation's history, intent and failure count. */
  lemma KeepsHistory(s: State, input: TurnInput, records: seq<Records.Patient>, fuzzyDob: Option<string>)
    ensures var r := Register(s, input, records, fuzzyDob);
      r.state.history == s.history && r.state.currentIntent == s.currentIntent && r.state.retryCount == s.retryCount
  {
    match s.step
    case RegOffered => OfferedShape(s, input.utterance, records);
    case CollectingName => CollectNameShape(s, input, records);
    case CollectingDob => CollectDobShape(s, input, records, fuzzyDob);
    case CollectingPhone => CollectPhoneShape(s, input.utterance, records);
    case CollectingEmail => CollectEmailShape(s, input.utterance, records);
    case _ =>
  }

  /** A refused answer changes neither the conversation nor the patient list. */
  lemma RefusalChangesNothing(s: State, input: TurnInput, records: seq<Records.Patient>, fuzzyDob: Option<string>)
    requires s.step.RegOffered? || s.step.CollectingName? || s.step.CollectingDob?
             || s.step.CollectingPhone? || s.step.CollectingEmail?
    ensures var r := Register(s, input, records, fuzzyDob);
      !r.ok ==> r.state == s && r.records == records && r.created.None?
  {
  }

  /** The patient list grows only on the e-mail step, by exactly the record it reports, and that
      record is then found by its name and date of birth and bound to the conversation. */
  lemma {:induction false} CreationIsReported(s: State, input: TurnInput, records: seq<Records.Patient>, fuzzyDob: Option<string>)
    ensures var r := Register(s, input, records, fuzzyDob);
      && (r.records != records ==> s.step == CollectingEmail && r.created.Some?)
      && (r.created.Some? ==>
            && r.ok
            && |r.records| == |records| + 1 && r.records[..|records|] == records
            && r.state.patientId == r.created
            && Records.FindById(r.records, r.created.value) == Some(r.records[|records|])
            && Records.CheckDuplicate(r.records, Field(s, "name"), Field(s, "dob")))
  {
    var r := Register(s, input, records, fuzzyDob);
    if r.created.Some? {
      assert s.step == CollectingEmail;
      var email := ValidateEmail(Strip(input.utterance)).value;
      Records.CreatedPatientFindable(records, Field(s, "name"), Field(s, "dob"), Field(s, "phone"), email);
      var c := Records.CreatePatient(records, Field(s, "name"), Field(s, "dob"), Field(s, "phone"), email).value;
      assert r.records == records + [c.patient];
      assert r.records[|records|] == c.patient;
      assert r.records[..|records|] == records;
    }
  }

  /** The part of `CreationIsReported` the dialogue needs: a changed patient list means one record
      was appended, the step succeeded and the conversation is bound to the new id. */
  lemma GrowthIsCreation(s: State, input: TurnInput, records: seq<Records.Patient>, fuzzyDob: Option<string>)
    ensures var r := Register(s, input, records, fuzzyDob);
      r.records != records ==>
        && r.created.Some? && r.ok && r.state.patientId == r.created
        && |r.records| == |records| + 1 && r.records[..|records|] == records
  {
    CreationIsReported(s, input, records, fuzzyDob);
  }

  /** The e-mail step cannot register the same name and date of birth twice: once the record
      exists, repeating the step is refused with the duplicate message. */
  lemma {:induction false} NoDoubleRegistration(s: State, utterance: string, records: seq<Records.Patient>)
    requires s.step == CollectingEmail
    requires CollectEmail(s, utterance, records).created.Some?
    ensures var again := CollectEmail(s, utterance, CollectEmail(s, utterance, records).records);
      again == Refuse(ErrorPrefix + Records.DuplicateMessage, s, CollectEmail(s, utterance, records).records)
  {
    var email := ValidateEmail(Strip(utterance)).value;
    Records.CreateTwiceFails(records, Field(s, "name"), Field(s, "dob"), Field(s, "phone"), email);
  }
}
