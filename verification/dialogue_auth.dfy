/** Identity verification across turns: the name and date of birth may arrive in different
    turns; the half already given waits in a slot. */
module Auth {
  import opened Wrappers
  import opened Text
  import opened Values
  import opened BaseAgent
  import opened ConversationState
  import opened DialogueTypes
  import Records
  import Nlu

  const PartialNameSlot := "partial_auth_name"
  const PartialDobSlot := "partial_auth_dob"

  /** The fixed lines of verification. */
  datatype Line = NeedVerification | AskFullName

  /** What each fixed line reads. */
  function Say(l: Line): string {
    match l
    case NeedVerification =>
      "Need patient verification to continue."
    case AskFullName =>
      "Thank you. To continue, could you please tell me your full name? For example: Alicia Thompson."
  }

  /** What verification did with the turn. */
  datatype AuthOutcome =
    | Authenticated(state: State)                    // the caller carries on with the turn
    | Prompted(result: AgentResult, state: State)    // the turn ends with this reply
    | AuthRaised(error: string)                      // an exception escapes the turn

  /** The credential to use: this turn's value when given, otherwise the one waiting in a slot. */
  function Merge(given: Option<string>, slots: map<string, string>, slot: string): (r: Option<string>)
    ensures Given(given) ==> r == given
    ensures !Given(given) ==> r == (if slot in slots then Some(slots[slot]) else None)
  {
    if Given(given) then given else if slot in slots then Some(slots[slot]) else None
  }

  function DropPartials(s: State): (r: State)
    ensures PartialNameSlot !in r.slots && PartialDobSlot !in r.slots
    ensures forall k :: k != PartialNameSlot && k != PartialDobSlot ==>
      (k in r.slots <==> k in s.slots) && (k in s.slots ==> r.slots[k] == s.slots[k])
    ensures r.(slots := s.slots) == s
  {
    s.PopSlot(PartialNameSlot).PopSlot(PartialDobSlot)
  }

  function OfferText(firstName: string): string {
    "I don't see a record for " + firstName + " in our system. "
    + "Would you like to register as a new patient? It'll just take a minute."
  }

  function AskDobText(firstName: string): string {
    "Thanks, " + firstName + ". To verify your identity, what's your date of birth? "
    + "Please include the month, day, and year."
  }

  /** What the prompt for credentials says it is needed for, from the intent being served. */
  function Action(currentIntent: Option<string>): string {
    var intent := currentIntent.GetOr(Nlu.OtherIntent);
    if intent == Nlu.InfoQueryIntent then "access your medical information"
    else if intent in {Nlu.ScheduleIntent, Nlu.RescheduleIntent, Nlu.CancelIntent} then "help with your appointment"
    else "assist you"
  }

  function AskCredentialsText(currentIntent: Option<string>, demoMode: bool): string {
    if demoMode then
      "To " + Action(currentIntent) + ", I'll need to verify your identity. What's your full name? "
      + "After that I'll ask for your date of birth."
    else Say(NeedVerification)
  }

  /** A FAILURE reply carrying its text and the serialised state. */
  function Reply(text: string, s: State, metadata: map<string, Value>, now: string): (r: AuthOutcome)
    ensures r.Prompted? && r.state == s
    ensures r.result.IsFailure() && r.result.errors == [text]
    ensures Get(r.result.output, "text") == VStr(text)
    ensures Get(r.result.output, "state") == StateValue(s)
    ensures forall k :: k in metadata ==> Get(r.result.metadata, k) == metadata[k]
    ensures r.result.metadata.Keys == metadata.Keys + {"timestamp"}
  {
    Prompted(FailureResult(text, map["text" := VStr(text), "state" := StateValue(s)], metadata, now), s)
  }

  /** `_authenticate_patient`: the merged credentials decide which case runs. */
  function Authenticate(s: State, input: TurnInput, records: seq<Records.Patient>, demoMode: bool, now: string)
    : (r: AuthOutcome)
    ensures var name := Merge(input.patientName, s.slots, PartialNameSlot);
      var dob := Merge(input.dob, s.slots, PartialDobSlot);
      && (Given(name) && Given(dob) ==> r == WithBoth(s, name.value, dob.value, records, now))
      && (Given(name) && !Given(dob) ==> r == NameOnly(s, name.value, now))
      && (!Given(name) && Given(dob) ==> r == DobOnly(s, dob.value, now))
      && (!Given(name) && !Given(dob) ==> r == Neither(s, demoMode, now))
  {
    var name := Merge(input.patientName, s.slots, PartialNameSlot);
    var dob := Merge(input.dob, s.slots, PartialDobSlot);
    if Given(name) && Given(dob) then WithBoth(s, name.value, dob.value, records, now)
    else if Given(name) then NameOnly(s, name.value, now)
    else if Given(dob) then DobOnly(s, dob.value, now)
    else Neither(s, demoMode, now)
  }

  /** Both credentials known: bind the patient on a match, otherwise offer registration. */
  function WithBoth(s: State, name: string, dob: string, records: seq<Records.Patient>, now: string): (r: AuthOutcome)
    ensures Records.FindByDob(records, name, dob).Some? <==> r.Authenticated?
    ensures r.Authenticated? ==>
      r.state == DropPartials(s).SetPatient(Records.FindByDob(records, name, dob).value.id).SetStep(NoStep)
    ensures Records.FindByDob(records, name, dob).None? ==> r == OfferRegistration(s, name, dob, now)
  {
    match Records.FindByDob(records, name, dob)
    case Some(p) => Authenticated(DropPartials(s).SetPatient(p.id).SetStep(NoStep))
    case None => OfferRegistration(s, name, dob, now)
  }

  /** No record matches: remember the credentials for registration and offer it. The first word
      of the name greets the caller, so a blank name raises the index error. */
  function OfferRegistration(s: State, name: string, dob: string, now: string): (r: AuthOutcome)
    ensures !Blank(name) ==>
      && r.Prompted? && r.result.IsFailure()
      && r.state == DropPartials(s).SetRegistrationField("name", name).SetRegistrationField("dob", dob).SetStep(RegOffered)
      && Get(r.result.output, "state") == StateValue(r.state)
      && Get(r.result.metadata, "auth_failed") == VBool(true)
      && Get(r.result.metadata, "registration_offered") == VBool(true)
      && Get(r.result.metadata, "auth_prompted") == VNull
    ensures Blank(name) ==> r == AuthRaised(IndexErrorMessage)
  {
    var offered := DropPartials(s).SetRegistrationField("name", name)
                     .SetRegistrationField("dob", dob).SetStep(RegOffered);
    match FirstWord(name)
    case None => AuthRaised(IndexErrorMessage)
    case Some(first) =>
      OfferFlags(OfferText(first), offered, name, dob, now);
      Reply(OfferText(first), offered, OfferMetadata(name, dob), now)
  }

  /** The flags of a registration offer; the credentials travel only as a masked hash. */
  function OfferMetadata(name: string, dob: string): (m: map<string, Value>)
    ensures Get(m, "auth_failed") == VBool(true) && Get(m, "registration_offered") == VBool(true)
    ensures "auth_prompted" !in m && "timestamp" !in m
    ensures Get(m, "phi_hash") == VStr(PhiMask)
  {
    map["auth_failed" := VBool(true), "registration_offered" := VBool(true),
        "phi_hash" := VStr(ProtectPhi(name + "|" + dob))]
  }

  /** The flags of a prompt for a missing credential: which half is held, which is expected. */
  function PromptMetadata(partial: Option<string>, expected: string): (m: map<string, Value>)
    ensures Get(m, "auth_prompted") == VBool(true) && Get(m, "auth_expected") == VStr(expected)
    ensures Get(m, "partial_auth") == OptStr(partial)
    ensures "auth_failed" !in m && "registration_offered" !in m && "timestamp" !in m
  {
    var m := map["auth_prompted" := VBool(true), "auth_expected" := VStr(expected)];
    if partial.Some? then m["partial_auth" := VStr(partial.value)] else m
  }

  /** Only the name: keep it in its slot and ask for the date of birth. */
  function NameOnly(s: State, name: string, now: string): (r: AuthOutcome)
    ensures !Blank(name) ==>
      && r.Prompted? && r.result.IsFailure()
      && r.state == s.UpdateSlots(map[PartialNameSlot := Some(name)]).SetStep(AwaitingAuth)
      && Get(r.result.output, "state") == StateValue(r.state)
      && Get(r.result.metadata, "auth_prompted") == VBool(true)
      && Get(r.result.metadata, "auth_expected") == VStr("dob")
      && Get(r.result.metadata, "auth_failed") == VNull
    ensures Blank(name) ==> r == AuthRaised(IndexErrorMessage)
  {
    match FirstWord(name)
    case None => AuthRaised(IndexErrorMessage)
    case Some(first) =>
      AskFlags(AskDobText(first), s.UpdateSlots(map[PartialNameSlot := Some(name)]).SetStep(AwaitingAuth),
               Some("name_only"), "dob", now);
      Reply(AskDobText(first), s.UpdateSlots(map[PartialNameSlot := Some(name)]).SetStep(AwaitingAuth),
            PromptMetadata(Some("name_only"), "dob"), now)
  }

  /** Only the date of birth: keep it in its slot and ask for the name. */
  function DobOnly(s: State, dob: string, now: string): (r: AuthOutcome)
    ensures r.Prompted? && r.result.IsFailure()
    ensures r.state == s.UpdateSlots(map[PartialDobSlot := Some(dob)]).SetStep(AwaitingAuth)
    ensures Get(r.result.output, "text") == VStr(Say(AskFullName))
    ensures Get(r.result.output, "state") == StateValue(r.state)
    ensures Get(r.result.metadata, "auth_prompted") == VBool(true)
    ensures Get(r.result.metadata, "auth_expected") == VStr("name")
    ensures Get(r.result.metadata, "auth_failed") == VNull
  {
    AskFlags(Say(AskFullName), s.UpdateSlots(map[PartialDobSlot := Some(dob)]).SetStep(AwaitingAuth),
             Some("dob_only"), "name", now);
    Reply(Say(AskFullName), s.UpdateSlots(map[PartialDobSlot := Some(dob)]).SetStep(AwaitingAuth),
          PromptMetadata(Some("dob_only"), "name"), now)
  }

  /** Neither credential: ask for the name, saying what it is needed for. */
  function Neither(s: State, demoMode: bool, now: string): (r: AuthOutcome)
    ensures r.Prompted? && r.result.IsFailure() && r.state == s.SetStep(AwaitingAuth)
    ensures Get(r.result.output, "text") == VStr(AskCredentialsText(s.currentIntent, demoMode))
    ensures Get(r.result.output, "state") == StateValue(r.state)
    ensures Get(r.result.metadata, "auth_prompted") == VBool(true)
    ensures Get(r.result.metadata, "auth_expected") == VStr("name")
    ensures Get(r.result.metadata, "auth_failed") == VNull
  {
    AskFlags(AskCredentialsText(s.currentIntent, demoMode), s.SetStep(AwaitingAuth), None, "name", now);
    Reply(AskCredentialsText(s.currentIntent, demoMode), s.SetStep(AwaitingAuth),
          PromptMetadata(None, "name"), now)
  }

  /** The flags of a registration offer survive into the reply. */
  lemma OfferFlags(text: string, s: State, name: string, dob: string, now: string)
    ensures var md := Reply(text, s, OfferMetadata(name, dob), now).result.metadata;
      && Get(md, "auth_failed") == VBool(true) && Get(md, "registration_offered") == VBool(true)
      && Get(md, "auth_prompted") == VNull
  {
  }

  /** A prompt for a missing credential is flagged as a prompt and not as a failed match. */
  lemma AskFlags(text: string, s: State, partial: Option<string>, expected: string, now: string)
    ensures var md := Reply(text, s, PromptMetadata(partial, expected), now).result.metadata;
      && Get(md, "auth_prompted") == VBool(true) && Get(md, "auth_expected") == VStr(expected)
      && Get(md, "auth_failed") == VNull
  {
  }

  /** The turn carries on past verification exactly when both credentials are known and on file. */
  lemma AuthenticatedIffFound(s: State, input: TurnInput, records: seq<Records.Patient>, demoMode: bool, now: string)
    ensures var name := Merge(input.patientName, s.slots, PartialNameSlot);
      var dob := Merge(input.dob, s.slots, PartialDobSlot);
      Authenticate(s, input, records, demoMode, now).Authenticated?
      <==> (Given(name) && Given(dob) && Records.FindByDob(records, name.value, dob.value).Some?)
  {
  }

  /** Every reply of verification is a FAILURE carrying the state it leaves behind, and that
      state waits for credentials or offers registration. */
  lemma PromptedShape(s: State, input: TurnInput, records: seq<Records.Patient>, demoMode: bool, now: string)
    requires Authenticate(s, input, records, demoMode, now).Prompted?
    ensures var r := Authenticate(s, input, records, demoMode, now);
      && r.result.IsFailure()
      && Get(r.result.output, "state") == StateValue(r.state)
      && (r.state.step == AwaitingAuth || r.state.step == RegOffered)
  {
  }
}
