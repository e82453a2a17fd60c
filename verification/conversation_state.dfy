/** The conversation-state record carried from one dialogue turn to the next: the last intent,
    the authenticated patient, scratch slots, a bounded turn history, the pending sub-flow step,
    registration scratch data and the NLU-failure retry counters. */
module ConversationState {
  import opened Wrappers
  import opened Text
  import opened Values

  const MaxHistory: nat := 20
  const DefaultMaxRetries: int := 2

  const AwaitingAuthName := "awaiting_auth"
  const RegistrationPrefix := "registration_"
  const RegOfferedName := "registration_offered"
  const CollectingNameName := "registration_collecting_name"
  const CollectingDobName := "registration_collecting_dob"
  const CollectingPhoneName := "registration_collecting_phone"
  const CollectingEmailName := "registration_collecting_email"

  /** The pending sub-flow. The source stores it as an optional string; every string has a step:
      the six sentinels, any other "registration_..." value, or any other text. */
  datatype Step =
    | NoStep
    | AwaitingAuth
    | RegOffered
    | CollectingName
    | CollectingDob
    | CollectingPhone
    | CollectingEmail
    | OtherReg(name: string)
    | OtherStep(name: string)
  {
    /** The catch-all cases hold only strings that no sentinel case covers. */
    predicate Valid() {
      match this
      case OtherReg(n) => StartsWith(n, RegistrationPrefix) && !IsSentinel(n)
      case OtherStep(n) => !StartsWith(n, RegistrationPrefix) && n != AwaitingAuthName
      case _ => true
    }

    /** `state.step and state.step.startswith("registration_")`. */
    predicate IsRegistration() {
      RegOffered? || CollectingName? || CollectingDob? || CollectingPhone? || CollectingEmail? || OtherReg?
    }
  }

  predicate IsSentinel(n: string) {
    n == RegOfferedName || n == CollectingNameName || n == CollectingDobName
    || n == CollectingPhoneName || n == CollectingEmailName
  }

  /** The string the source stores for a step. */
  function StepName(st: Step): Option<string> {
    match st
    case NoStep => None
    case AwaitingAuth => Some(AwaitingAuthName)
    case RegOffered => Some(RegOfferedName)
    case CollectingName => Some(CollectingNameName)
    case CollectingDob => Some(CollectingDobName)
    case CollectingPhone => Some(CollectingPhoneName)
    case CollectingEmail => Some(CollectingEmailName)
    case OtherReg(n) => Some(n)
    case OtherStep(n) => Some(n)
  }

  /** Reads a stored step string. */
  function ParseStep(o: Option<string>): (st: Step)
    ensures st.Valid()
  {
    match o
    case None => NoStep
    case Some(n) =>
      if n == AwaitingAuthName then AwaitingAuth
      else if n == RegOfferedName then RegOffered
      else if n == CollectingNameName then CollectingName
      else if n == CollectingDobName then CollectingDob
      else if n == CollectingPhoneName then CollectingPhone
      else if n == CollectingEmailName then CollectingEmail
      else if StartsWith(n, RegistrationPrefix) then OtherReg(n)
      else OtherStep(n)
  }

  lemma StepNameOfParse(o: Option<string>)
    ensures StepName(ParseStep(o)) == o
  {
    if o.Some? {
      var n := o.value;
      if n == AwaitingAuthName {
        assert ParseStep(o) == AwaitingAuth;
      }
    }
  }

  /** The one sentinel outside the "registration_" family does not carry the prefix. */
  lemma AwaitingAuthNotRegistration()
    ensures !StartsWith(AwaitingAuthName, RegistrationPrefix)
  {
    assert AwaitingAuthName[0] != RegistrationPrefix[0];
  }

  lemma ParseOfStepName(st: Step)
    requires st.Valid()
    ensures ParseStep(StepName(st)) == st
  {
    AwaitingAuthNotRegistration();
  }

  /** The registration branch of the dialogue is taken exactly when the stored string is present,
      non-empty and starts with "registration_". */
  lemma IsRegistrationIffPrefix(st: Step)
    requires st.Valid()
    ensures st.IsRegistration() <==>
      (StepName(st).Some? && StepName(st).value != [] && StartsWith(StepName(st).value, RegistrationPrefix))
  {
    AwaitingAuthNotRegistration();
    var k := |RegistrationPrefix|;
    assert RegOfferedName[..k] == RegistrationPrefix;
    assert CollectingNameName[..k] == RegistrationPrefix;
    assert CollectingDobName[..k] == RegistrationPrefix;
    assert CollectingPhoneName[..k] == RegistrationPrefix;
    assert CollectingEmailName[..k] == RegistrationPrefix;
  }

  datatype Turn = Turn(role: string, text: string)

  datatype State = State(
    currentIntent: Option<string>,
    patientId: Option<string>,
    slots: map<string, string>,
    history: seq<Turn>,
    step: Step,
    registrationData: map<string, string>,
    retryCount: int,
    maxRetries: int)
  {
    predicate Valid() {
      step.Valid()
    }

    /** `not state.patient_id`: the patient is unbound or bound to the empty id. */
    predicate Unauthenticated() {
      patientId.None? || patientId.value == []
    }

    /** Appends a turn and keeps only the most recent `MaxHistory` entries. */
    function AddTurn(role: string, text: string): (r: State)
      ensures |r.history| <= MaxHistory
      ensures |r.history| == (if |history| + 1 > MaxHistory then MaxHistory else |history| + 1)
      ensures r.history[|r.history| - 1] == Turn(role, text)
      ensures forall i :: 0 <= i < |r.history| - 1 ==> r.history[i] == history[|history| + 1 - |r.history| + i]
      ensures r.(history := history) == this
    {
      var appended := history + [Turn(role, text)];
      var kept := if |appended| > MaxHistory then appended[|appended| - MaxHistory..] else appended;
      this.(history := kept)
    }

    function SetIntent(intent: string): (r: State)
      ensures r.currentIntent == Some(intent)
      ensures r.(currentIntent := currentIntent) == this
    {
      this.(currentIntent := Some(intent))
    }

    function SetPatient(id: string): (r: State)
      ensures r.patientId == Some(id)
      ensures r.(patientId := patientId) == this
    {
      this.(patientId := Some(id))
    }

    function SetStep(st: Step): (r: State)
      ensures r.step == st
      ensures r.(step := step) == this
    {
      this.(step := st)
    }

    /** `update_slots(**kv)`: keys given a value are written, keys given None are ignored. */
    function UpdateSlots(kv: map<string, Option<string>>): (r: State)
      ensures forall k :: k in kv && kv[k].Some? ==> k in r.slots && r.slots[k] == kv[k].value
      ensures forall k :: !(k in kv && kv[k].Some?) ==> (k in r.slots <==> k in slots)
      ensures forall k :: !(k in kv && kv[k].Some?) && k in slots ==> r.slots[k] == slots[k]
      ensures r.(slots := slots) == this
    {
      var given := map k | k in kv && kv[k].Some? :: kv[k].value;
      this.(slots := slots + given)
    }

    /** `slots.pop(key, None)`. */
    function PopSlot(key: string): (r: State)
      ensures key !in r.slots
      ensures forall k :: k != key ==> (k in r.slots <==> k in slots)
      ensures forall k :: k != key && k in slots ==> r.slots[k] == slots[k]
      ensures r.(slots := slots) == this
    {
      this.(slots := slots - {key})
    }

    /** `get_registration_field`: the collected value, absent for a field never collected. */
    function GetRegistrationField(field: string): (r: Option<string>)
      ensures r.Some? <==> field in registrationData
      ensures r.Some? ==> r.value == registrationData[field]
    {
      if field in registrationData then Some(registrationData[field]) else None
    }

    function SetRegistrationField(field: string, value: string): (r: State)
      ensures r.registrationData.Keys == registrationData.Keys + {field}
      ensures r.(registrationData := registrationData) == this
    {
      this.(registrationData := registrationData[field := value])
    }

    function ClearRegistrationData(): (r: State)
      ensures r.registrationData == map[]
      ensures r.(registrationData := registrationData) == this
    {
      this.(registrationData := map[])
    }

    /** Counts one more low-confidence turn. */
    function IncrementRetry(): (r: State)
      ensures r.retryCount == retryCount + 1
      ensures r.(retryCount := retryCount) == this
    {
      this.(retryCount := retryCount + 1)
    }

    function ResetRetry(): (r: State)
      ensures r.retryCount == 0
      ensures r.(retryCount := retryCount) == this
    {
      this.(retryCount := 0)
    }
  }

  /** A fresh conversation. */
  function Initial(): (s: State)
    ensures s.Valid() && s.Unauthenticated() && s.history == [] && s.step == NoStep
    ensures s.retryCount == 0 && s.maxRetries == DefaultMaxRetries
  {
    State(None, None, map[], [], NoStep, map[], 0, DefaultMaxRetries)
  }

  lemma AddTurnKeepsNewest(s: State, role: string, text: string)
    requires |s.history| <= MaxHistory
    ensures |s.AddTurn(role, text).history| <= |s.history| + 1
    ensures |s.history| < MaxHistory ==> s.AddTurn(role, text).history == s.history + [Turn(role, text)]
    ensures |s.history| == MaxHistory ==> s.AddTurn(role, text).history == s.history[1..] + [Turn(role, text)]
  {
  }

  lemma RegistrationFieldRoundTrip(s: State, field: string, value: string, other: string)
    requires other != field
    ensures s.SetRegistrationField(field, value).GetRegistrationField(field) == Some(value)
    ensures s.SetRegistrationField(field, value).GetRegistrationField(other) == s.GetRegistrationField(other)
    ensures s.ClearRegistrationData().GetRegistrationField(field) == None
  {
  }

  // ---------------------------------------------------------------- serialisation

  function TurnValue(t: Turn): Value {
    VMap(map["role" := VStr(t.role), "text" := VStr(t.text)])
  }

  /** Reads a history entry; a missing or non-string role or text reads as empty. */
  function TurnOf(v: Value): Turn {
    if v.VMap? then
      Turn(StrOpt(Get(v.fields, "role")).GetOr(""), StrOpt(Get(v.fields, "text")).GetOr(""))
    else Turn("", "")
  }

  function HistoryValue(h: seq<Turn>): (v: Value)
    ensures v.VList? && |v.items| == |h|
  {
    VList(seq(|h|, i requires 0 <= i < |h| => TurnValue(h[i])))
  }

  function HistoryOf(v: Value): seq<Turn> {
    if v.VList? then seq(|v.items|, i requires 0 <= i < |v.items| => TurnOf(v.items[i])) else []
  }

  function IntOr(v: Value, default: int): int {
    if v.VInt? then v.i else default
  }

  /** `to_dict()`, extended with the retry fields so they survive the request boundary. */
  function ToDict(s: State): (d: map<string, Value>)
    ensures d.Keys == {"current_intent", "patient_id", "slots", "history", "step", "registration_data",
                       "retry_count", "max_retries"}
  {
    map[
      "current_intent" := OptStr(s.currentIntent),
      "patient_id" := OptStr(s.patientId),
      "slots" := StrMap(s.slots),
      "history" := HistoryValue(s.history),
      "step" := OptStr(StepName(s.step)),
      "registration_data" := StrMap(s.registrationData),
      "retry_count" := VInt(s.retryCount),
      "max_retries" := VInt(s.maxRetries)
    ]
  }

  /** `from_dict(d)`: every missing key takes the field's default. */
  function FromDict(d: map<string, Value>): (s: State)
    ensures s.Valid()
  {
    State(
      StrOpt(Get(d, "current_intent")),
      StrOpt(Get(d, "patient_id")),
      MapOfStr(Get(d, "slots")),
      HistoryOf(Get(d, "history")),
      ParseStep(StrOpt(Get(d, "step"))),
      MapOfStr(Get(d, "registration_data")),
      IntOr(Get(d, "retry_count"), 0),
      IntOr(Get(d, "max_retries"), DefaultMaxRetries))
  }

  lemma FromDictEmpty()
    ensures FromDict(map[]) == Initial()
  {
  }

  lemma HistoryRoundTrip(h: seq<Turn>)
    ensures HistoryOf(HistoryValue(h)) == h
  {
    var back := HistoryOf(HistoryValue(h));
    forall i | 0 <= i < |h| ensures back[i] == h[i] {
      assert HistoryValue(h).items[i] == TurnValue(h[i]);
    }
  }

  lemma FromDictToDict(s: State)
    requires s.Valid()
    ensures FromDict(ToDict(s)) == s
  {
    var d := ToDict(s);
    StrOptOfOptStr(s.currentIntent);
    StrOptOfOptStr(s.patientId);
    StrOptOfOptStr(StepName(s.step));
    MapOfStrOfStrMap(s.slots);
    MapOfStrOfStrMap(s.registrationData);
    HistoryRoundTrip(s.history);
    ParseOfStepName(s.step);
    assert Get(d, "history") == HistoryValue(s.history);
    assert Get(d, "slots") == StrMap(s.slots);
    assert Get(d, "registration_data") == StrMap(s.registrationData);
  }
}
