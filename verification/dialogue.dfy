/** `DialogueManager.execute`: one turn of the conversation. The turn resumes a pending
    verification, classifies the utterance, falls back to graduated recovery on low confidence,
    continues a registration, starts one, verifies the caller for patient-bound requests, routes the
    request, scores the reply and may flag it for review. */
module Dialogue {
  import opened Wrappers
  import opened Values
  import opened BaseAgent
  import opened ConversationState
  import opened DialogueTypes
  import Nlu
  import Records
  import Recovery
  import Auth
  import Registration
  import Routing
  import Scorer = ConfidenceScorer

  const LowConfidenceWarning := "NLU_LOW_CONFIDENCE"

  const StartRegistrationText := "Welcome! Let's get you registered. What's your full name?"
  const Disclaimer := "\n\n(Note: This response will be reviewed by our team to ensure accuracy.)"

  /** A score in hundredths as the float the source stores. */
  function Fraction(x: int): Value {
    VReal(x as real / 100.0)
  }

  /** The last entry of a history, if any. */
  function LastTurn(h: seq<Turn>): Option<Turn> {
    if h == [] then None else Some(h[|h| - 1])
  }

  /** A reply that answers the caller: a history within its bound whose last entry is the reply's
      own text, and an output whose "state" entry is the state the turn ends in. */
  predicate Answered(r: TurnOutcome) {
    && r.Replied?
    && |r.state.history| <= MaxHistory
    && Get(r.result.output, "state") == StateValue(r.state)
    && LastTurn(r.state.history) == Some(Turn("assistant", TextOf(r.result.output)))
  }

  /** A verification prompt: a FAILURE carrying the state it leaves, which waits for credentials
      or offers registration, with the caller's utterance the last entry of the history. */
  predicate Prompt(r: TurnOutcome, utterance: string) {
    && r.Replied?
    && |r.state.history| <= MaxHistory
    && Get(r.result.output, "state") == StateValue(r.state)
    && LastTurn(r.state.history) == Some(Turn("user", utterance))
    && r.result.IsFailure()
    && (r.state.step == AwaitingAuth || r.state.step == RegOffered)
  }

  /** The patient list changes only by one appended record, created by this turn's registration
      step, bound to the conversation and reported in the output. */
  predicate RecordsGrowByRegistration(r: TurnOutcome, world: World) {
    r.Replied? && r.world.records != world.records ==>
      && |r.world.records| == |world.records| + 1
      && r.world.records[..|world.records|] == world.records
      && r.state.patientId.Some?
      && Get(r.result.output, "patient_id") == VStr(r.state.patientId.value)
      && r.result.IsSuccess()
  }

  /** What every turn guarantees: a reply either answers or prompts for verification; the FAQ never
      changes; the schedule changes only in a turn that ends with a patient bound; the patient list
      grows only by registration. */
  predicate Sound(r: TurnOutcome, world: World, utterance: string) {
    && (r.Replied? ==> Answered(r) || Prompt(r, utterance))
    && (r.Replied? ==> r.world.faq == world.faq)
    && (r.Replied? && r.world.schedule != world.schedule ==> r.state.patientId.Some?)
    && RecordsGrowByRegistration(r, world)
  }

  /** The state a turn works on once the caller's utterance is recorded. */
  predicate Recorded(s: State, utterance: string) {
    s.Valid() && |s.history| <= MaxHistory && LastTurn(s.history) == Some(Turn("user", utterance))
  }

  /** Whether the recovery ladder answers this classification. */
  predicate Unsure(config: Config, c: Nlu.Classification) {
    config.recoveryEnabled && c.confidence < config.lowThreshold
  }

  /** How verification ends a turn when it does not let it carry on: a prompt is the reply, with
      the world untouched; an exception escapes. */
  predicate Stopped(r: TurnOutcome, a: Auth.AuthOutcome, world: World) {
    && (a.Prompted? ==> r == Replied(a.result, a.state, world))
    && (a.AuthRaised? ==> r == Raised(a.error))
  }

  /** A request that is routed: a patient is bound when the intent needs one, and the reply is
      built from what routing returns for the intent in state `s`. */
  predicate RoutedFrom(r: TurnOutcome, config: Config, c: Nlu.Classification, input: TurnInput, s: State,
                       world: World, oracles: Oracles) {
    && (c.intent in Routing.PatientRequired ==> s.patientId.Some?)
    && r == RouteReply(config, c, s, Routing.Route(c.intent, s, input, world, oracles), world, oracles)
  }

  /** The stage of an understood turn that answers it. */
  datatype Stage = Recover | ContinueRegistration | BeginRegistration | Verify | RouteRequest

  /** The order in which the stages take the utterance: low confidence first, then a
      registration in progress, then an explicit request to register, then verification of an
      unverified caller for a patient-bound request, and otherwise routing. */
  function StageOf(config: Config, c: Nlu.Classification, s1: State): Stage {
    if Unsure(config, c) then Recover
    else if s1.step.IsRegistration() then ContinueRegistration
    else if c.intent == Nlu.RegisterIntent then BeginRegistration
    else if c.intent in Routing.PatientRequired && s1.Unauthenticated() then Verify
    else RouteRequest
  }

  /** How each stage answers an understood turn, once the utterance is classified and the intent
      recorded. */
  predicate Understood(r: TurnOutcome, config: Config, input: TurnInput, s: State, world: World, oracles: Oracles) {
    var c := Nlu.Classify(input.utterance, oracles.nluModel);
    var s1 := s.SetIntent(c.intent);
    Answers(StageOf(config, c, s1), r, config, input, c, s1, world, oracles)
  }

  /** How `stage` answers the turn classified as `c` in state `s1`. */
  predicate Answers(stage: Stage, r: TurnOutcome, config: Config, input: TurnInput, c: Nlu.Classification, s1: State,
                    world: World, oracles: Oracles) {
    match stage
    case Recover => r == LowConfidence(config, input.utterance, s1, c, world, oracles)
    case ContinueRegistration =>
      r == RegistrationReply(Registration.Register(s1, input, world.records, oracles.fuzzyDob), world, oracles.now)
    case BeginRegistration => r == StartRegistration(s1, world, oracles.now)
    case Verify => Gated(r, config, input, c, s1, world, oracles)
    case RouteRequest => RoutedFrom(r, config, c, input, s1, world, oracles)
  }

  /** Verification before routing: it either stops the turn or binds the patient, and then the
      request is routed in the state it leaves. */
  predicate Gated(r: TurnOutcome, config: Config, input: TurnInput, c: Nlu.Classification, s1: State, world: World,
                  oracles: Oracles) {
    var a := Auth.Authenticate(s1, input, world.records, config.demoMode, oracles.now);
    && Stopped(r, a, world)
    && (a.Authenticated? ==> RoutedFrom(r, config, c, input, a.state, world, oracles))
  }

  // ---------------------------------------------------------------- the turn

  /** `execute`. The incoming state comes from `from_dict` or a fresh conversation, so its step is
      well formed. A pending verification is resumed before anything else; otherwise the turn is
      understood. */
  method Execute(config: Config, input: TurnInput, state: State, world: World, oracles: Oracles) returns (r: TurnOutcome)
    requires state.Valid()
    ensures Sound(r, world, input.utterance)
    ensures var s0 := Start(config, input, state);
      s0.step == AwaitingAuth ==> Stopped(r, Auth.Authenticate(s0, input, world.records, config.demoMode, oracles.now), world)
    ensures var s0 := Start(config, input, state);
      s0.step != AwaitingAuth ==> Understood(r, config, input, s0, world, oracles)
  {
    var s0 := Start(config, input, state);
    if s0.step == AwaitingAuth {
      r := Resume(config, input, s0, world, oracles);
    } else {
      r := Understand(config, input, s0, world, oracles);
    }
  }

  /** The retry limit is taken from the configuration and the caller's utterance recorded. */
  function Start(config: Config, input: TurnInput, state: State): (s0: State)
    requires state.Valid()
    ensures Recorded(s0, input.utterance)
    ensures s0.maxRetries == config.maxRetryAttempts
    ensures s0.(history := state.history, maxRetries := state.maxRetries) == state
  {
    state.(maxRetries := config.maxRetryAttempts).AddTurn("user", input.utterance)
  }

  /** A pending verification: a prompt ends the turn, an exception escapes, and success carries on
      with the bound patient. */
  method Resume(config: Config, input: TurnInput, s0: State, world: World, oracles: Oracles) returns (r: TurnOutcome)
    requires Recorded(s0, input.utterance)
    ensures Sound(r, world, input.utterance)
    ensures var a := Auth.Authenticate(s0, input, world.records, config.demoMode, oracles.now);
      && Stopped(r, a, world)
      && (a.Authenticated? ==> Understood(r, config, input, a.state, world, oracles))
  {
    var a := Auth.Authenticate(s0, input, world.records, config.demoMode, oracles.now);
    AuthKeepsHistory(s0, input, world.records, config.demoMode, oracles.now);
    match a
    case Prompted(result, st) =>
      Auth.PromptedShape(s0, input, world.records, config.demoMode, oracles.now);
      r := Replied(result, st, world);
    case AuthRaised(e) =>
      r := Raised(e);
    case Authenticated(st) =>
      AuthenticatedIsBound(s0, input, world.records, config.demoMode, oracles.now);
      r := Understand(config, input, st, world, oracles);
  }

  /** The utterance is classified and the intent recorded; then the first stage that applies
      answers. */
  method Understand(config: Config, input: TurnInput, s: State, world: World, oracles: Oracles) returns (r: TurnOutcome)
    requires Recorded(s, input.utterance)
    ensures Sound(r, world, input.utterance)
    ensures Understood(r, config, input, s, world, oracles)
  {
    var c := Nlu.Classify(input.utterance, oracles.nluModel);
    var s1 := s.SetIntent(c.intent);
    if StageOf(config, c, s1) in {Verify, RouteRequest} {
      r := HandleRequest(config, input, c, s1, world, oracles);
    } else {
      r := HandleFlow(config, input, c, s1, world, oracles);
    }
  }

  /** The stages that answer without routing: recovery and registration. */
  method HandleFlow(config: Config, input: TurnInput, c: Nlu.Classification, s1: State, world: World,
                    oracles: Oracles) returns (r: TurnOutcome)
    requires Recorded(s1, input.utterance)
    requires StageOf(config, c, s1) !in {Verify, RouteRequest}
    ensures Sound(r, world, input.utterance)
    ensures Answers(StageOf(config, c, s1), r, config, input, c, s1, world, oracles)
  {
    match StageOf(config, c, s1)
    case Recover =>
      r := LowConfidence(config, input.utterance, s1, c, world, oracles);
    case ContinueRegistration =>
      r := RegistrationTurn(input, s1, world, oracles);
    case BeginRegistration =>
      r := StartRegistration(s1, world, oracles.now);
  }

  /** The stages of a request: verification of the caller when it needs a patient, then routing. */
  method HandleRequest(config: Config, input: TurnInput, c: Nlu.Classification, s1: State, world: World,
                       oracles: Oracles) returns (r: TurnOutcome)
    requires Recorded(s1, input.utterance)
    requires StageOf(config, c, s1) in {Verify, RouteRequest}
    ensures Sound(r, world, input.utterance)
    ensures Answers(StageOf(config, c, s1), r, config, input, c, s1, world, oracles)
  {
    if StageOf(config, c, s1) == Verify {
      r := PatientGate(config, input, s1, c, world, oracles);
    } else {
      r := RouteTurn(config, input, s1, c, world, oracles);
    }
  }

  // ---------------------------------------------------------------- stages

  /** A reply that records the assistant's turn: the output is `extras` with the reply's text and
      the state the turn ends in. */
  function Answer(status: AgentStatus, text: string, extras: map<string, Value>, s: State,
                  metadata: map<string, Value>, errors: seq<string>, warnings: seq<string>, world: World,
                  now: string): (r: TurnOutcome)
    ensures Answered(r) && r.world == world && r.state == s.AddTurn("assistant", text)
    ensures r.result.status == status && r.result.errors == errors && r.result.warnings == warnings
    ensures TextOf(r.result.output) == text
    ensures forall k :: k in extras && k != "text" && k != "state" ==> Get(r.result.output, k) == extras[k]
    ensures forall k :: k in metadata ==> Get(r.result.metadata, k) == metadata[k]
  {
    var final := s.AddTurn("assistant", text);
    Replied(MakeResult(status, Output(text, extras, final), metadata, errors, warnings, now), final, world)
  }

  /** `{**extras, "text": text, "state": s.to_dict()}`. */
  function Output(text: string, extras: map<string, Value>, s: State): (o: map<string, Value>)
    ensures TextOf(o) == text
    ensures Get(o, "state") == StateValue(s)
    ensures forall k :: k in extras && k != "text" && k != "state" ==> Get(o, k) == extras[k]
  {
    extras["text" := VStr(text)]["state" := StateValue(s)]
  }

  /** Low confidence: the recovery ladder answers, PARTIAL with a warning, and nothing else of the
      turn runs. */
  function LowConfidence(config: Config, utterance: string, s1: State, c: Nlu.Classification, world: World,
                         oracles: Oracles): (r: TurnOutcome)
    ensures Answered(r) && r.world == world
    ensures r.state.step == s1.step && r.state.patientId == s1.patientId
    ensures TextOf(r.result.output)
      == Recovery.RungText(Recovery.RungFor(s1.retryCount + 1, s1.maxRetries), oracles.clarification, config.escalationPhone)
    ensures r.result.status == PARTIAL && r.result.warnings == [LowConfidenceWarning] && r.result.errors == []
    ensures Get(r.result.metadata, "fallback_level") == VInt(r.state.retryCount)
    ensures Get(r.result.metadata, "nlu_confidence") == Fraction(c.confidence)
  {
    var rec := Recovery.HandleNluFailure(s1, oracles.clarification, config.escalationPhone);
    var count := rec.state.AddTurn("assistant", rec.text).retryCount;
    Answer(PARTIAL, rec.text, map[], rec.state, FallbackMetadata(c, count), [], [LowConfidenceWarning], world, oracles.now)
  }

  /** The metadata of a recovery reply. */
  function FallbackMetadata(c: Nlu.Classification, count: int): (m: map<string, Value>)
    ensures Get(m, "nlu_confidence") == Fraction(c.confidence)
    ensures Get(m, "fallback_level") == VInt(count)
    ensures Get(m, "intent") == VStr(c.intent)
  {
    map["nlu_confidence" := Fraction(c.confidence), "fallback_level" := VInt(count), "intent" := VStr(c.intent)]
  }

  /** A registration in progress takes the utterance, whatever its intent. */
  function RegistrationTurn(input: TurnInput, s1: State, world: World, oracles: Oracles): (r: TurnOutcome)
    ensures Answered(r) && r.world.faq == world.faq && r.world.schedule == world.schedule
    ensures RecordsGrowByRegistration(r, world)
  {
    var reg := Registration.Register(s1, input, world.records, oracles.fuzzyDob);
    Registration.KeepsHistory(s1, input, world.records, oracles.fuzzyDob);
    Registration.GrowthIsCreation(s1, input, world.records, oracles.fuzzyDob);
    RegistrationReply(reg, world, oracles.now)
  }

  /** The reply to a registration step; the patient list is whatever the step leaves. The step's
      output already holds its text, so writing the text again leaves it as the source's
      `{**output, "state": ...}` does. */
  function RegistrationReply(reg: Registration.RegReply, world: World, now: string): (r: TurnOutcome)
    ensures Answered(r) && r.world == world.(records := reg.records)
    ensures r.state == reg.state.AddTurn("assistant", reg.text)
    ensures r.result.IsSuccess() <==> reg.ok
    ensures TextOf(r.result.output) == reg.text
    ensures reg.created.Some? ==> Get(r.result.output, "patient_id") == VStr(reg.created.value)
  {
    var res := Registration.ResultOf(reg, now);
    Answer(res.status, reg.text, res.output, reg.state, res.metadata, res.errors, res.warnings,
           world.(records := reg.records), now)
  }

  /** An explicit request to register starts collecting the name. The reply's "state" is the state
      the turn ends in (see `StartRegistrationAsWritten` for the snapshot the source returns). */
  function StartRegistration(s1: State, world: World, now: string): (r: TurnOutcome)
    ensures Answered(r) && r.world == world && r.result.IsSuccess()
    ensures r.state == s1.SetStep(CollectingName).AddTurn("assistant", StartRegistrationText)
    ensures TextOf(r.result.output) == StartRegistrationText
  {
    Answer(SUCCESS, StartRegistrationText, map[], s1.SetStep(CollectingName), map[], [], [], world, now)
  }

  /** The same stage as the source writes it: the state is serialised before the assistant's turn
      is added, but the serialisation shares the history list, so it sees the appended turn and
      keeps all of it when the state's own history is cut back to its bound. */
  function StartRegistrationAsWritten(s1: State, world: World, now: string): (r: TurnOutcome)
    ensures r.Replied? && r.world == world && r.result.IsSuccess()
    ensures r.state == s1.SetStep(CollectingName).AddTurn("assistant", StartRegistrationText)
    ensures var started := s1.SetStep(CollectingName);
      Get(r.result.output, "state")
        == StateValue(started.(history := started.history + [Turn("assistant", StartRegistrationText)]))
  {
    var started := s1.SetStep(CollectingName);
    var shared := started.(history := started.history + [Turn("assistant", StartRegistrationText)]);
    Replied(SuccessResult(Output(StartRegistrationText, map[], shared), map[], now),
            started.AddTurn("assistant", StartRegistrationText), world)
  }

  /** A patient-bound request from an unverified caller: verification either prompts (ending the
      turn), raises, or binds the patient and the request is routed. */
  method PatientGate(config: Config, input: TurnInput, s1: State, c: Nlu.Classification, world: World,
                     oracles: Oracles) returns (r: TurnOutcome)
    requires Recorded(s1, input.utterance)
    ensures Sound(r, world, input.utterance)
    ensures Gated(r, config, input, c, s1, world, oracles)
  {
    var a := Auth.Authenticate(s1, input, world.records, config.demoMode, oracles.now);
    AuthKeepsHistory(s1, input, world.records, config.demoMode, oracles.now);
    match a
    case Prompted(result, st) =>
      Auth.PromptedShape(s1, input, world.records, config.demoMode, oracles.now);
      r := Replied(result, st, world);
    case AuthRaised(e) =>
      r := Raised(e);
    case Authenticated(st) =>
      AuthenticatedIsBound(s1, input, world.records, config.demoMode, oracles.now);
      r := RouteTurn(config, input, st, c, world, oracles);
  }

  /** The request is routed and the reply built from what routing returns; an exception from
      routing escapes. Routing never touches the patient list or binds a patient. */
  method RouteTurn(config: Config, input: TurnInput, s1: State, c: Nlu.Classification, world: World,
                   oracles: Oracles) returns (r: TurnOutcome)
    requires c.intent in Routing.PatientRequired ==> s1.patientId.Some?
    ensures r.Replied? ==> Answered(r) && r.world.faq == world.faq && r.world.records == world.records
    ensures r.Replied? && r.world.schedule != world.schedule ==> r.state.patientId.Some?
    ensures r.Replied? ==> r.state.patientId == s1.patientId && r.state.step == s1.step
    ensures RoutedFrom(r, config, c, input, s1, world, oracles)
  {
    var rt := Routing.Route(c.intent, s1, input, world, oracles);
    Routing.RouteFrame(c.intent, s1, input, world, oracles);
    r := RouteReply(config, c, s1, rt, world, oracles);
  }

  /** The reply to a routed request: a confident understanding clears the failure count; the
      reply is scored and finished with the routed status, errors and warnings, its text the
      scored text, in the world with the schedule routing leaves. */
  function RouteReply(config: Config, c: Nlu.Classification, s1: State, rt: Routing.RouteOutcome, world: World,
                      oracles: Oracles): (r: TurnOutcome)
    ensures rt.RouteRaised? ==> r == Raised(rt.error)
    ensures rt.Routed? ==>
      && Answered(r) && r.world == world.(schedule := rt.schedule)
      && r.state.(history := rt.state.history, retryCount := rt.state.retryCount) == rt.state
      && r.result.status == rt.result.status && r.result.errors == rt.result.errors
      && r.result.warnings == rt.result.warnings
      && TextOf(r.result.output) == Score(config, c, rt.result, oracles).text
    ensures rt.Routed? && config.recoveryEnabled && c.confidence >= config.lowThreshold ==>
      r.state.retryCount == (if rt.state.retryCount > 0 then 0 else rt.state.retryCount)
    ensures rt.Routed? && !(config.recoveryEnabled && c.confidence >= config.lowThreshold) ==>
      r.state.retryCount == rt.state.retryCount
  {
    match rt
    case RouteRaised(e) => Raised(e)
    case Routed(res, st, schedule) =>
      var st2 := if config.recoveryEnabled then Recovery.CheckAndReset(c.confidence, config.lowThreshold, st) else st;
      Finish(res, Score(config, c, res, oracles), st2, world.(schedule := schedule), oracles.now)
  }

  /** The scored reply: its output and metadata before the final text and state are added, and the
      final text. */
  datatype Scored = Scored(output: map<string, Value>, metadata: map<string, Value>, text: string)

  /** Scoring, when enabled and the reply has text: the score goes into the metadata and the
      output, and a score below the threshold flags the reply for review (unless writing the
      review log fails) and appends the disclaimer when it is enabled. */
  function Score(config: Config, c: Nlu.Classification, res: AgentResult, oracles: Oracles): (r: Scored)
    ensures !(config.scoringEnabled && TextOf(res.output) != "") ==> r == Scored(res.output, res.metadata, TextOf(res.output))
    ensures config.scoringEnabled && TextOf(res.output) != "" ==>
      var score := Scorer.ScoreResponse(oracles.judge, TextOf(res.output), c.intent, c.entities);
      Get(r.metadata, "confidence_score") == Fraction(score) && Get(r.output, "confidence_score") == Fraction(score)
    ensures r.text == TextOf(res.output) || r.text == TextOf(res.output) + Disclaimer
  {
    var text := TextOf(res.output);
    if !(config.scoringEnabled && text != "") then Scored(res.output, res.metadata, text)
    else
      var score := Scorer.ScoreResponse(oracles.judge, text, c.intent, c.entities);
      var metadata := res.metadata["confidence_score" := Fraction(score)];
      var output := res.output["confidence_score" := Fraction(score)];
      if Scorer.ShouldFlag(score, config.threshold) && !oracles.flagLogFails then
        Scored(output, metadata["flagged_for_review" := VBool(true)], if config.disclaimer then text + Disclaimer else text)
      else Scored(output, metadata, text)
  }

  /** The final text replaces the output's, the assistant's turn is recorded, and the reply carries
      the routed status, errors and warnings with the state the turn ends in. */
  function Finish(res: AgentResult, sc: Scored, st: State, world: World, now: string): (r: TurnOutcome)
    ensures Answered(r) && r.world == world
    ensures r.state == st.AddTurn("assistant", sc.text)
    ensures r.result.status == res.status && r.result.errors == res.errors && r.result.warnings == res.warnings
    ensures TextOf(r.result.output) == sc.text
    ensures forall k :: k in sc.metadata ==> Get(r.result.metadata, k) == sc.metadata[k]
  {
    Answer(res.status, sc.text, sc.output, st, sc.metadata, res.errors, res.warnings, world, now)
  }

  // ---------------------------------------------------------------- verification facts

  /** Verification never touches the history. */
  lemma AuthKeepsHistory(s: State, input: TurnInput, records: seq<Records.Patient>, demoMode: bool, now: string)
    ensures var a := Auth.Authenticate(s, input, records, demoMode, now);
      !a.AuthRaised? ==> a.state.history == s.history
  {
    var name := Auth.Merge(input.patientName, s.slots, Auth.PartialNameSlot);
    var dob := Auth.Merge(input.dob, s.slots, Auth.PartialDobSlot);
    var a := Auth.Authenticate(s, input, records, demoMode, now);
    if Given(name) && Given(dob) {
      assert a == Auth.WithBoth(s, name.value, dob.value, records, now);
    } else if Given(name) {
      assert a == Auth.NameOnly(s, name.value, now);
    } else if Given(dob) {
      assert a == Auth.DobOnly(s, dob.value, now);
    } else {
      assert a == Auth.Neither(s, demoMode, now);
    }
  }

  /** Successful verification binds a patient and leaves no step pending. */
  lemma AuthenticatedIsBound(s: State, input: TurnInput, records: seq<Records.Patient>, demoMode: bool, now: string)
    requires Auth.Authenticate(s, input, records, demoMode, now).Authenticated?
    ensures var st := Auth.Authenticate(s, input, records, demoMode, now).state;
      st.Valid() && st.patientId.Some? && st.step == NoStep
  {
    var name := Auth.Merge(input.patientName, s.slots, Auth.PartialNameSlot);
    var dob := Auth.Merge(input.dob, s.slots, Auth.PartialDobSlot);
    Auth.AuthenticatedIffFound(s, input, records, demoMode, now);
    assert Auth.Authenticate(s, input, records, demoMode, now) == Auth.WithBoth(s, name.value, dob.value, records, now);
  }

  // ---------------------------------------------------------------- properties of the turn

  /** A reply is flagged for review exactly when it was scored below the threshold and the review
      log was written (or the routed metadata already carried the flag), and the text is changed
      exactly when such a reply gets the disclaimer. */
  lemma FlaggedIffBelowThreshold(config: Config, c: Nlu.Classification, res: AgentResult, oracles: Oracles)
    ensures var text := TextOf(res.output);
      var r := Score(config, c, res, oracles);
      var flags := config.scoringEnabled && text != ""
        && Scorer.ShouldFlag(Scorer.ScoreResponse(oracles.judge, text, c.intent, c.entities), config.threshold)
        && !oracles.flagLogFails;
      && (Get(r.metadata, "flagged_for_review") == VBool(true)
          <==> flags || Get(res.metadata, "flagged_for_review") == VBool(true))
      && (r.text != text <==> flags && config.disclaimer)
      && (r.text != text ==> r.text == text + Disclaimer)
  {
    var text := TextOf(res.output);
    var r := Score(config, c, res, oracles);
    if r.text != text {
      assert |r.text| == |text| + |Disclaimer|;
    }
    if config.scoringEnabled && text != "" {
      var score := Scorer.ScoreResponse(oracles.judge, text, c.intent, c.entities);
      assert "confidence_score" != "flagged_for_review";
      if !(Scorer.ShouldFlag(score, config.threshold) && !oracles.flagLogFails) {
        assert Get(r.metadata, "flagged_for_review") == Get(res.metadata, "flagged_for_review");
      }
    }
  }

  /** The source's reply to an explicit request to register, once the history is full, returns a
      state whose history, read back, holds one turn more than the bound, while the state itself
      was cut back to the bound. */
  lemma SnapshotExceedsBound(s1: State, world: World, now: string)
    requires |s1.history| == MaxHistory
    ensures var r := StartRegistrationAsWritten(s1, world, now);
      && Get(r.result.output, "state").VMap?
      && |FromDict(Get(r.result.output, "state").fields).history| == MaxHistory + 1
      && |r.state.history| == MaxHistory
  {
    var started := s1.SetStep(CollectingName);
    var shared := started.(history := started.history + [Turn("assistant", StartRegistrationText)]);
    FromDictToDict(shared);
  }

  /** Below the bound the snapshot the source returns is the state the turn ends in, so the
      corrected stage replies exactly as the source does. */
  lemma SnapshotAgreesBelowBound(s1: State, world: World, now: string)
    requires |s1.history| < MaxHistory
    ensures StartRegistrationAsWritten(s1, world, now) == StartRegistration(s1, world, now)
  {
    var started := s1.SetStep(CollectingName);
    assert started.(history := started.history + [Turn("assistant", StartRegistrationText)])
        == started.AddTurn("assistant", StartRegistrationText);
  }

  /** The corrected stage returns a state that reads back as the state the turn ends in, within the
      bound. */
  lemma SnapshotWithinBound(s1: State, world: World, now: string)
    requires s1.Valid()
    ensures var r := StartRegistration(s1, world, now);
      && Get(r.result.output, "state").VMap?
      && FromDict(Get(r.result.output, "state").fields) == r.state
      && |r.state.history| <= MaxHistory
  {
    var r := StartRegistration(s1, world, now);
    FromDictToDict(r.state);
  }
}
