/** What one dialogue turn is given and what it gives back. The language model, the judge, the
    fuzzy date parser, the clock, the random appointment id and the log writer of the source are
    not called: their answers for this turn arrive in `Oracles`. */
module DialogueTypes {
  import opened Wrappers
  import opened Values
  import BaseAgent
  import ConversationState
  import Nlu
  import Records
  import Scheduling
  import Knowledge

  /** The dialogue manager's construction parameters. Scores and thresholds are hundredths. */
  datatype Config = Config(
    scoringEnabled: bool,
    threshold: int,
    disclaimer: bool,
    recoveryEnabled: bool,
    lowThreshold: int,
    maxRetryAttempts: int,
    escalationPhone: string,
    demoMode: bool)

  /** The defaults: scoring on at 0.70 with the disclaimer, recovery on at 0.60 with two retries,
      and demo mode on (the environment variable defaults to "true"). */
  const DefaultConfig := Config(true, 70, true, true, 60, 2, "(555) 0100", true)

  /** The turn's input dictionary. `None` is an absent key. */
  datatype TurnInput = TurnInput(
    utterance: string,
    patientName: Option<string>,
    dob: Option<string>,
    slotId: Option<string>,
    appointmentId: Option<string>,
    newSlot: Option<string>,
    doctor: Option<string>)

  /** The answers of everything outside the model for this turn:
      - `nluModel`: the language model's classification, `None` when the call failed;
      - `clarification`: the generated clarification question, `None` when generation failed;
      - `fuzzyDob`: the fuzzy date parser's ISO date, `None` when it raised;
      - `generated`: the response generator's text (confirmation, slot offer, lab explanation);
      - `followUp`: the generated follow-up prompt;
      - `judge`: the judge's parsed score, `None` when the call or the parse failed;
      - `flagLogFails`: writing the review log raises;
      - `now`: the clock, as text;
      - `freshAppointmentId`: the "A-" id a booking would mint. */
  datatype Oracles = Oracles(
    nluModel: Option<Nlu.ModelAnswer>,
    clarification: Option<string>,
    fuzzyDob: Option<string>,
    generated: string,
    followUp: string,
    judge: Option<int>,
    flagLogFails: bool,
    now: string,
    freshAppointmentId: string)

  /** The collaborators' data: the records agent's patients, the scheduling agent's store (which
      keeps its own patient list) and the FAQ. */
  datatype World = World(records: seq<Records.Patient>, schedule: Scheduling.Store, faq: seq<Knowledge.FaqEntry>)

  /** A turn either replies, or an exception escapes `execute`. */
  datatype TurnOutcome =
    | Replied(result: BaseAgent.AgentResult, state: ConversationState.State, world: World)
    | Raised(error: string)

  /** Python truthiness of an optional text. */
  predicate Given(o: Option<string>) {
    o.Some? && o.value != []
  }

  /** The message of the IndexError raised by `"".split()[0]`. */
  const IndexErrorMessage := "list index out of range"

  /** The serialised state as it appears in an output dictionary. */
  function StateValue(s: ConversationState.State): Value {
    VMap(ConversationState.ToDict(s))
  }

  /** `output.get("text", "")` for a textual entry. */
  function TextOf(output: map<string, Value>): string {
    if "text" in output && output["text"].VStr? then output["text"].s else ""
  }
}
