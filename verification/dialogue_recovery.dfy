/** Graduated recovery from low-confidence understanding: a clarification question, then a menu
    of options, then escalation to staff, driven by the state's retry counter. */
module Recovery {
  import opened Wrappers
  import opened Text
  import opened ConversationState

  const DefaultClarification :=
    "I want to be sure I help with the right thing. Could you share a bit more about what you need help with?"

  /** The fixed lines of recovery. */
  datatype Line = AskMore | Options

  /** What each fixed line reads. */
  function Say(l: Line): string {
    match l
    case AskMore => DefaultClarification
    case Options =>
      "I want to make sure I help you with the right thing. Here's what I can assist with:\n\n"
      + "1. Schedule a new appointment\n"
      + "2. Reschedule an existing appointment\n"
      + "3. Cancel an appointment\n"
      + "4. Check lab results or medications\n"
      + "5. Get clinic information (hours, location, insurance)\n"
      + "6. Speak with a staff member\n\n"
      + "Please tell me the number or describe what you need."
  }

  function EscalationText(phone: string): string {
    "I apologize, but I'm having trouble understanding your request. "
    + "Let me connect you with a team member who can better assist you. "
    + "Please call our main line at " + phone + ", or stay on the line and "
    + "someone will be with you shortly."
  }

  /** `generate_clarification_question`: the model's text stripped, unless it failed or was blank. */
  function ClarificationText(generated: Option<string>): (r: string)
    ensures r != []
    ensures generated.Some? && !Blank(generated.value) ==> r == Strip(generated.value)
    ensures (generated.None? || Blank(generated.value)) ==> r == Say(AskMore)
  {
    if generated.Some? && !Blank(generated.value) then
      StripEmptyIffBlank(generated.value);
      Strip(generated.value)
    else Say(AskMore)
  }

  /** The three rungs of the ladder. */
  datatype Rung = Clarify | Menu | Escalate

  /** Which rung a retry count reaches: 1 clarifies; 2 offers the menu when more than one retry is
      allowed; reaching the limit escalates; anything else offers the menu. */
  function RungFor(count: int, maxRetries: int): (r: Rung)
    ensures count == 1 ==> r == Clarify
    ensures count >= 1 ==> (r == Escalate <==> count >= EscalationPoint(maxRetries))
    ensures count > 1 && r != Escalate ==> r == Menu
  {
    if count == 1 then Clarify
    else if count == 2 && maxRetries > 1 then Menu
    else if count >= maxRetries then Escalate
    else Menu
  }

  function RungText(rung: Rung, clarification: Option<string>, phone: string): string {
    match rung
    case Clarify => ClarificationText(clarification)
    case Menu => Say(Options)
    case Escalate => EscalationText(phone)
  }

  /** What a low-confidence turn produced: the rung reached, its text and the new state. */
  datatype Recovered = Recovered(rung: Rung, text: string, state: State)

  /** `handle_nlu_failure`: counts the failure, then answers from the rung reached; escalation
      resets the counter. */
  function HandleNluFailure(s: State, clarification: Option<string>, phone: string)
    : (r: Recovered)
    ensures r.rung == RungFor(s.retryCount + 1, s.maxRetries)
    ensures r.text == RungText(r.rung, clarification, phone)
    ensures r.state.retryCount == (if r.rung == Escalate then 0 else s.retryCount + 1)
    ensures r.state.(retryCount := s.retryCount) == s
  {
    var counted := s.IncrementRetry();
    var rung := RungFor(counted.retryCount, counted.maxRetries);
    var next := if rung == Escalate then counted.ResetRetry() else counted;
    Recovered(rung, RungText(rung, clarification, phone), next)
  }

  /** `check_and_reset_retry_on_success`. */
  function CheckAndReset(confidence: int, lowThreshold: int, s: State): (r: State)
    ensures confidence >= lowThreshold && s.retryCount > 0 ==> r == s.ResetRetry()
    ensures !(confidence >= lowThreshold && s.retryCount > 0) ==> r == s
  {
    if confidence >= lowThreshold && s.retryCount > 0 then s.ResetRetry() else s
  }

  /** The count of consecutive failures that escalates: the limit itself once it is three or
      more, but 3 for a limit of 2 (count 2 always gets the menu) and 2 for a smaller limit
      (count 1 always gets the clarification). */
  function EscalationPoint(maxRetries: int): (n: int)
    ensures n >= 2 && n >= maxRetries
  {
    if maxRetries <= 1 then 2 else if maxRetries == 2 then 3 else maxRetries
  }

  /** With the default two retries, three failures in a row clarify, offer the menu, then
      escalate with the counter back at zero. */
  lemma DefaultLadder(s: State, clarification: Option<string>, phone: string)
    requires s.retryCount == 0 && s.maxRetries == DefaultMaxRetries
    ensures var r1 := HandleNluFailure(s, clarification, phone);
      var r2 := HandleNluFailure(r1.state, clarification, phone);
      var r3 := HandleNluFailure(r2.state, clarification, phone);
      && r1.rung == Clarify && r1.text == ClarificationText(clarification) && r1.state.retryCount == 1
      && r2.rung == Menu && r2.text == Say(Options) && r2.state.retryCount == 2
      && r3.rung == Escalate && r3.text == EscalationText(phone) && r3.state.retryCount == 0
  {
  }

  /** Failures before the escalation point never escalate and only count... */
  lemma NoEscalationBefore(s: State, clarification: Option<string>, phone: string)
    requires 0 <= s.retryCount && s.retryCount + 1 < EscalationPoint(s.maxRetries)
    ensures HandleNluFailure(s, clarification, phone).rung != Escalate
    ensures HandleNluFailure(s, clarification, phone).state.retryCount == s.retryCount + 1
  {
  }

  /** ...and the failure that reaches it escalates and resets the counter. */
  lemma EscalationAtPoint(s: State, clarification: Option<string>, phone: string)
    requires s.retryCount + 1 == EscalationPoint(s.maxRetries)
    ensures HandleNluFailure(s, clarification, phone).rung == Escalate
    ensures HandleNluFailure(s, clarification, phone).state.retryCount == 0
  {
  }

  /** The counter stays below the escalation point: 0 <= retryCount < EscalationPoint is kept. */
  lemma RetryStaysBelowPoint(s: State, clarification: Option<string>, phone: string)
    requires 0 <= s.retryCount < EscalationPoint(s.maxRetries)
    ensures var r := HandleNluFailure(s, clarification, phone).state;
      0 <= r.retryCount < EscalationPoint(r.maxRetries)
  {
  }
}
