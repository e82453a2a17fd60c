# EMRFlow dialogue core in Dafny

EMRFlow is a clinic voice assistant. For each caller utterance, its dialogue manager runs a
pipeline:

1. resume a pending identity check;
2. classify the intent;
3. recover from low-confidence understanding with a clarify / menu / escalate ladder;
4. drive a five-step new-patient registration;
5. verify the caller before patient-bound requests;
6. route the request to an agent: records, scheduling or FAQ knowledge;
7. score the reply and flag a weak one for review.

This project models that per-turn controller and the pure building blocks it calls:

- the conversation-state record, including its bounded history, slots and registration fields, and its dictionary round trip;
- the phone, e-mail and name validators;
- the keyword fallback classifier and its confidence estimate;
- the in-memory patient store, with lookup, duplicate check, sequential ids and creation;
- the schedule store, with slot search, booking, rescheduling and cancellation;
- the FAQ token-overlap matcher;
- the heuristic response scorer;
- the agent result envelope.

Three smaller pieces are modelled as well:

- from the voice server: the month-first date parser, the post-turn step fix-up, the spoken-text fallback and the hang-up rule;
- from the metrics aggregator: the percentile and the per-session success fold;
- the workflow context and the workflow engine's retry and step-sequencing loop.

Everything is an immutable datatype with pure functions, plus methods where the source loops.
The language model, the judge, the date parser, the clock and fresh identifiers are not
modelled; their outputs are parameters, gathered for a turn in `DialogueTypes.Oracles`. Scores
and thresholds are integer hundredths: 0.75 is 75, and the 0.7 flag threshold is 70.

Modules by source file:

| module | source |
|---|---|
| `BaseAgent` | src/agents/base_agent.py |
| `ConversationState` | src/utils/conversation_state.py |
| `Validation` | src/utils/validation.py |
| `Nlu` | src/agents/nlu_agent.py |
| `Records` | src/agents/records_agent.py |
| `Scheduling` | src/agents/scheduling_agent.py |
| `Knowledge` | src/agents/knowledge_agent.py |
| `ConfidenceScorer` | src/agents/confidence_scorer.py |
| `DialogueTypes`, `Recovery`, `Auth`, `Registration`, `Routing`, `Dialogue` | src/agents/dialogue_manager.py |
| `VoiceServer` | src/cli/voice_server.py |
| `Metrics` | src/metrics/metrics_aggregator.py |
| `Workflow` | src/orchestration/workflow_context.py |
| `WorkflowEngine` | src/orchestration/workflow_engine.py |

`Text`, `Values`, `Sorting` and `Wrappers` are shared helpers:

- `Text`: Python string operations (`strip`, `split`, `lower`, `in`, `int`, `str`, `join`);
- `Values`: a JSON-like value for free-form dictionaries;
- `Sorting`: a sort by key;
- `Wrappers`: `Option` and `Result`.

## Model

| member | source | states |
|---|---|---|
| BaseAgent.MakeResult | src/agents/base_agent.py:24-45 | the result keeps the given status, output, errors and warnings; its metadata keeps every supplied entry and gains a "timestamp" from the clock exactly when none was supplied |
| BaseAgent.SuccessResult | src/agents/base_agent.py:163-182 | a SUCCESS result (so not a failure) with the given output, no errors or warnings, and the supplied metadata entries |
| BaseAgent.FailureResult | src/agents/base_agent.py:184-206 | a FAILURE result (so not a success) whose only error is the given one, with the given output and metadata entries |
| BaseAgent.ProtectPhi | src/agents/base_agent.py:116-130 | an empty text is kept; any other text is replaced by the "[PHI PROTECTED]" mask |
| ConversationState.ParseStep | src/utils/conversation_state.py:20 | every stored step string (or none) reads as a well-formed step |
| ConversationState.StepNameOfParse | src/utils/conversation_state.py:38-39 | reading a stored step and writing it back gives the same optional string |
| ConversationState.ParseOfStepName | src/utils/conversation_state.py:38-39 | writing a well-formed step and reading it back gives the same step |
| ConversationState.AwaitingAuthNotRegistration | src/agents/dialogue_manager.py:132-142 | the "awaiting_auth" step does not carry the "registration_" prefix, so it never enters the registration sub-flow |
| ConversationState.IsRegistrationIffPrefix | src/agents/dialogue_manager.py:132-142 | a step is a registration step exactly when its stored string is present and starts with "registration_" |
| ConversationState.AddTurn | src/utils/conversation_state.py:23-27 | the history ends with the new turn, is at most 20 long, keeps the newest entries in order, and nothing else changes |
| ConversationState.AddTurnKeepsNewest | src/utils/conversation_state.py:23-27 | below the bound the turn is appended; at the bound the oldest entry is dropped and the turn appended |
| ConversationState.SetIntent | src/utils/conversation_state.py:29-30 | the current intent becomes the given one; nothing else changes |
| ConversationState.SetPatient | src/utils/conversation_state.py:32-33 | the patient binding becomes the given id; nothing else changes |
| ConversationState.SetStep | src/utils/conversation_state.py:38-39 | the step becomes the given one; nothing else changes |
| ConversationState.UpdateSlots | src/utils/conversation_state.py:35-36 | keys given a value are written with it; keys given None and all other keys keep their presence and values; nothing else changes |
| ConversationState.PopSlot | src/agents/dialogue_manager.py:388-390 | `slots.pop(key, None)`: the key is gone, every other slot is as before, and nothing else changes |
| ConversationState.GetRegistrationField | src/utils/conversation_state.py:41-43 | a field reads as the value collected for it, and as absent exactly when none was collected |
| ConversationState.SetRegistrationField | src/utils/conversation_state.py:45-47 | the field is present afterwards, and every other part of the state is unchanged |
| ConversationState.ClearRegistrationData | src/utils/conversation_state.py:49-51 | the registration data becomes empty; nothing else changes |
| ConversationState.RegistrationFieldRoundTrip | src/utils/conversation_state.py:41-51 | a field reads back as last set, other fields are unaffected, and after clearing every field reads as absent |
| ConversationState.IncrementRetry | src/agents/dialogue_manager.py:270 | the retry count goes up by one; nothing else changes |
| ConversationState.ResetRetry | src/agents/dialogue_manager.py:354-357 | the retry count becomes 0; nothing else changes |
| ConversationState.Initial | src/utils/conversation_state.py:12-21 | a fresh conversation is unauthenticated, with empty history, no step, no retries and the default retry limit |
| ConversationState.HistoryValue | src/utils/conversation_state.py:58 | the history serialises to a list with one entry per turn |
| ConversationState.HistoryRoundTrip | src/utils/conversation_state.py:53-72 | a serialised history reads back as the same turns |
| ConversationState.ToDict | src/utils/conversation_state.py:53-61 | the dictionary has exactly the six keys of `to_dict` plus "retry_count" and "max_retries" |
| ConversationState.FromDict | src/utils/conversation_state.py:63-72 | any dictionary, with any keys missing, restores a well-formed state |
| ConversationState.FromDictEmpty | src/utils/conversation_state.py:63-72 | restoring from an empty dictionary gives a fresh conversation |
| ConversationState.FromDictToDict | src/utils/conversation_state.py:53-72 | serialising a well-formed state and restoring it gives the same state |
| Validation.National | src/utils/validation.py:40-47 | the ten national digits of a US-shaped digit string are its last ten |
| Validation.FormatPhone | src/utils/validation.py:42-46 | the "+1-AAA-BBB-CCCC" form is 15 characters whose digits are "1" followed by the ten national digits |
| Validation.FormatPhoneDigits | src/utils/validation.py:42-46 | the digits of the formatted number are "1" followed by the national digits |
| Validation.ValidatePhone | src/utils/validation.py:14-49 | empty input is "required"; otherwise valid exactly when the digits are ten, or eleven starting with 1, and the normalised form carries those national digits; every other input gets the 10-digit message |
| Validation.ValidatePhoneIdempotent | src/utils/validation.py:14-49 | a normalised phone validates to itself |
| Validation.EmailPatternOfIsEmail | src/utils/validation.py:71-75 | the decision procedure only accepts texts matching the e-mail pattern |
| Validation.IsEmailOfEmailSplit | src/utils/validation.py:71-75 | every way of matching the e-mail pattern is accepted by the decision procedure |
| Validation.IsEmailIffPattern | src/utils/validation.py:71-75 | the decision procedure accepts exactly the texts matching `^[a-zA-Z0-9._%+-]+@[a-zA-Z0-9.-]+\.[a-zA-Z]{2,}$` |
| Validation.ValidateEmail | src/utils/validation.py:52-79 | empty input is "required"; otherwise valid exactly when the stripped text matches the pattern, and then the value is the stripped text lower-cased |
| Validation.LowerKeepsEmailSplit | src/utils/validation.py:75-77 | lower-casing keeps a match of the e-mail pattern at the same split points |
| Validation.LowerEmailStaysClean | src/utils/validation.py:73-77 | a lower-cased match still matches and has no surrounding white space |
| Validation.ValidateEmailIdempotent | src/utils/validation.py:52-79 | a normalised e-mail validates to itself |
| Validation.ValidateEmailOfClean | src/utils/validation.py:52-79 | a non-empty, already stripped match validates to its lower-case form |
| Validation.ValidateName | src/utils/validation.py:82-110 | empty is "required", under two stripped characters is "full name", no space is "first and last"; valid exactly otherwise, with the stripped name as value |
| Validation.ValidateNameIdempotent | src/utils/validation.py:82-110 | a validated name validates to itself |
| Validation.BlankNameTooShort | src/utils/validation.py:97-104 | a non-empty name of white space alone gets the "full name" message, not "required" |
| Nlu.FirstRule | src/agents/nlu_agent.py:113-128 | the chosen keyword group has a word in the text and no earlier group does; none is chosen only when no group matches |
| Nlu.FallbackRules | src/agents/nlu_agent.py:110-128 | the fallback returns no entities and an intent of the closed vocabulary, chosen by the earliest matching keyword group with that group's confidence, and Other at 0.40 when no keyword occurs in the lower-cased utterance |
| Nlu.EstimateConfidence | src/agents/nlu_agent.py:130-143 | 0.2 for a blank utterance, 0.5 for Other or no intent, otherwise by word count: 0.8 above ten words, 0.7 for six to ten words, 0.6 for five words or fewer |
| Nlu.Classify | src/agents/nlu_agent.py:47-71 | a failed model call gives the keyword fallback; otherwise the model's intent (Other when missing) and entities, with its confidence or, when missing, the estimate |
| Nlu.FallbackLowIffOther | src/agents/nlu_agent.py:116-128 | under the fallback, the confidence is below the 0.60 gate exactly when the intent is Other |
| Nlu.MissingCharNoMatch | src/agents/nlu_agent.py:115-126 | a keyword cannot occur in a text that lacks one of its characters |
| Nlu.CancelWins | src/agents/nlu_agent.py:117-119 | a lower-cased utterance containing "cancel" and no registration keyword is a cancellation at 0.85, whatever scheduling words it also holds |
| Nlu.CancelTextNoRegister | src/agents/nlu_agent.py:115 | "cancel my appointment" holds none of the registration keywords |
| Nlu.CancelBeatsAppointment | src/agents/nlu_agent.py:117-123 | "cancel my appointment" classifies as a cancellation although it mentions "appointment" |
| Records.LowerCharKeepsSpace | src/agents/records_agent.py:253-254 | lower-casing neither creates nor removes white space, so stripping and lower-casing commute |
| Records.NormalizeName | src/agents/records_agent.py:252-254 | a name of only white space normalises to nothing; any other has no white space at either end and no upper-case letter, and is no longer than the input |
| Records.NormalizeNameIdempotent | src/agents/records_agent.py:253-254 | normalising a name twice changes nothing more, and a stripped name normalises like the raw one |
| Records.NormalizeDate | src/agents/records_agent.py:265-272 | empty stays empty; a text that is YYYY-MM-DD with month 1-12 and day 1-31, alone or followed by 'T' or ' ', becomes that date; anything else is kept as it is (an approximation of `fromisoformat`) |
| Records.NormalizeDateIdempotent | src/agents/records_agent.py:265-272 | normalising a date twice changes nothing more |
| Records.IndexOfId | src/agents/records_agent.py:84-89 | the index found holds the id and no earlier record does; none is found exactly when no record has the id |
| Records.FindById | src/agents/records_agent.py:84-89 | the patient returned is in the list with the requested id; none exactly when no patient has that id |
| Records.RequirePatient | src/agents/records_agent.py:141-146 | succeeds exactly when the id is found, with that patient; otherwise the error is "Patient not found: " with the id masked |
| Records.GetLabResults | src/agents/records_agent.py:126-129 | the lab results of the patient with the id, and an error exactly when no patient has it |
| Records.Keys | src/agents/records_agent.py:102-103 | one normalised name and date of birth pair per patient, in list order |
| Records.FindByDob | src/agents/records_agent.py:91-112 | the patient returned is the first whose normalised name and normalised date of birth equal the query's; none exactly when no patient matches |
| Records.CheckDuplicate | src/agents/records_agent.py:214-232 | a name and date of birth are a duplicate exactly when the lookup by date of birth finds a patient |
| Records.UntilDash | src/agents/records_agent.py:246 | the text before the first "-" holds no "-", and is the whole text when there is none |
| Records.MaxFrom | src/agents/records_agent.py:241-249 | the running maximum of a floor and a list of optional numbers: at least the floor and every number present, and equal to the floor or to one of them |
| Records.MaxSuffixFrom | src/agents/records_agent.py:241-249 | the largest of 1000 and the parsable "P-" numbers: at least each of them, and equal to the floor or to some patient's number |
| Records.GenerateId | src/agents/records_agent.py:234-250 | a generated id starts with "P-" and its number is one past the largest of 1000 and every parsable existing id number |
| Records.IdSuffix | src/agents/records_agent.py:243-248 | the number `int(id.split("-")[1])` reads from an id starting "P-", absent when that raises; never negative (its leniency is shown by Records.IdSuffixLenient) |
| Records.IdSuffixLenient | src/agents/records_agent.py:246 | `int` on the id's number ignores a space after the dash and a digit-group underscore, so "P- 1_5" reads as 15 |
| Records.IdSuffixOfGenerated | src/agents/records_agent.py:246-250 | the number of "P-" followed by a rendered number reads back as that number |
| Records.GeneratedIdExceeds | src/agents/records_agent.py:234-250 | the generated id's number is parsable, above 1000 and above every existing parsable id number, and one less than it is 1000 or an existing number: exactly one past the largest |
| Records.GeneratedIdFresh | src/agents/records_agent.py:234-250 | no existing patient already has the generated id |
| Records.CreatePatient | src/agents/records_agent.py:148-212 | name, then phone, then e-mail are validated, each failure raising its own message; a duplicate is refused with "Patient already exists"; otherwise one record with the fresh id, stripped name and normalised contacts is appended and nothing else changes |
| Records.AppendedFindable | src/agents/records_agent.py:84-89 | appending a record whose id is new makes it the answer to a lookup by that id |
| Records.CreatedPatientFindable | src/agents/records_agent.py:183-206 | a created patient has an id no other patient has, is found by id, and is now a duplicate of its name and date of birth |
| Records.CreateTwiceFails | src/agents/records_agent.py:183-206 | registering the same name and date of birth again fails with "Patient already exists" |
| Sorting.SortBy | src/agents/scheduling_agent.py:100 | the result is ordered by the key and is a permutation of the input |
| Scheduling.FindInGrid | src/agents/scheduling_agent.py:192-195 | the position found holds the id and no position before it, doctor by doctor and slot by slot, does; none only when no position holds it |
| Scheduling.SlotIds | src/agents/scheduling_agent.py:192-194 | one row of slot ids per doctor, in schedule order |
| Scheduling.FindSlot | src/agents/scheduling_agent.py:189-195 | the position found is a slot with that id; none exactly when no slot has it |
| Scheduling.FindSlotById | src/agents/scheduling_agent.py:198-205 | an empty reference finds nothing; any other reference finds what the slot lookup finds |
| Scheduling.RequireSlot | src/agents/scheduling_agent.py:189-196 | succeeds exactly when the slot exists, at its position; otherwise the error is "Slot not found: " with the reference masked |
| Scheduling.WithSlot | src/agents/scheduling_agent.py:115-117 | the chosen slot is replaced and every other slot and doctor is unchanged |
| Scheduling.WithSlotKeepsIds | src/agents/scheduling_agent.py:115-117 | replacing a slot by one with the same id leaves every slot id where it was |
| Scheduling.Free | src/agents/scheduling_agent.py:146-149 | a freed slot is available with no patient or appointment bound, keeping its id, start and location |
| Scheduling.FindDoctor | src/agents/scheduling_agent.py:177-187 | the doctor found is the first one the reference names by id or by name; failure, with "Doctor not found: " and the reference, exactly when none does |
| Scheduling.Offers | src/agents/scheduling_agent.py:87-98 | an offer is produced exactly for each available slot of the doctor whose start lies inside the optional range, merged with the doctor's name and id |
| Scheduling.FindAvailableSlots | src/agents/scheduling_agent.py:77-100 | fails exactly when the doctor is unknown; otherwise the offers are sorted by start and are exactly the doctor's available slots inside the range |
| Scheduling.IndexOfPatient | src/agents/scheduling_agent.py:214-217 | the index found holds the id; none only when no patient has it |
| Scheduling.RequirePatient | src/agents/scheduling_agent.py:214-218 | succeeds exactly when the patient exists; otherwise "Patient not found: " with the id masked |
| Scheduling.AppointmentIds | src/agents/scheduling_agent.py:208-210 | one row of appointment ids per patient, in order |
| Scheduling.FindAppointment | src/agents/scheduling_agent.py:207-212 | the position found is an appointment with that id; failure, with "Appointment not found: " and the id masked, exactly when no appointment has it |
| Scheduling.WithAppt | src/agents/scheduling_agent.py:151-156 | the chosen appointment is replaced and every other appointment and patient is unchanged |
| Scheduling.Release | src/agents/scheduling_agent.py:164-175 | the appointment's old slot, when it still exists, is freed; every other slot is unchanged |
| Scheduling.MoveBooking | src/agents/scheduling_agent.py:146-160 | the new slot is booked for the patient and appointment, a distinct old slot is freed, and no other slot changes |
| Scheduling.BookingId | src/agents/scheduling_agent.py:114 | a booking reuses a non-empty appointment id already on the slot, otherwise the fresh id |
| Scheduling.Book | src/agents/scheduling_agent.py:102-131 | an unknown patient, an unknown slot and an already booked slot each fail with their message; a success books exactly that slot for the patient under the appointment's id, changes no other slot, and appends exactly one scheduled appointment to that patient alone |
| Scheduling.BookTwiceFails | src/agents/scheduling_agent.py:111-117 | once a slot is booked, booking it again fails with "Slot already booked", whoever asks |
| Scheduling.Reschedule | src/agents/scheduling_agent.py:133-162 | every lookup and the booked check fail before anything changes; a success frees the old slot, books the new one for the same patient and appointment id, updates the appointment's slot, doctor, time, location and status, and changes nothing else |
| Scheduling.Cancel | src/agents/scheduling_agent.py:164-175 | fails exactly for an unknown appointment; otherwise the appointment's slot (if any) is freed, the appointment is marked canceled and kept, and nothing else changes |
| Knowledge.Runs | src/agents/knowledge_agent.py:83 | every element found is a non-empty run of ASCII letters and digits |
| Knowledge.RunsAreMaximal | src/agents/knowledge_agent.py:83 | each run found sits somewhere in the text and cannot be extended on either side |
| Knowledge.MaximalRunsAreFound | src/agents/knowledge_agent.py:83 | conversely, every maximal letter-and-digit run of the text is among the runs found |
| Knowledge.Tokenize | src/agents/knowledge_agent.py:81-84 | every token is a non-empty letter-and-digit run |
| Knowledge.TokenizeIffMaximalRun | src/agents/knowledge_agent.py:81-84 | a string is a token exactly when it is a maximal run of the lower-cased text |
| Knowledge.TokenizeEmptyIff | src/agents/knowledge_agent.py:81-84 | a text yields no tokens exactly when it has no ASCII letter or digit |
| Knowledge.Scores | src/agents/knowledge_agent.py:65-67 | one score per FAQ entry, in order, each the number of query tokens its question shares |
| Knowledge.BestIndex | src/agents/knowledge_agent.py:62-70 | the entry kept has the largest score and every earlier entry a strictly smaller one; nothing is kept exactly when every score is 0 |
| Knowledge.BestReachesIff | src/agents/knowledge_agent.py:68-73 | the kept entry reaches two shared tokens exactly when some entry does |
| Knowledge.AnswerQuestion | src/agents/knowledge_agent.py:56-79 | an answer is given exactly when the query has tokens and some entry shares at least two of them; it is the first entry with the most shared tokens, with its question and answer, and confidence shared tokens over query tokens, in (0, 1] |
| Knowledge.Execute | src/agents/knowledge_agent.py:29-54 | success exactly when a question is answered, with its question, answer and confidence; otherwise a partial result with no answer, the masked query and the "No FAQ matched query" warning |
| ConfidenceScorer.HeuristicScore | src/agents/confidence_scorer.py:155-187 | the score lies in [0, 100]; an empty response scores 10 and is flagged; a non-empty unhedged answer of ordinary length scores at least 75 and is never flagged; with no entity mentioned, a hedge or fewer than four words is always flagged; a hedge caps the score at 60 plus the bonuses |
| ConfidenceScorer.ScoreResponse | src/agents/confidence_scorer.py:65-98 | the result lies in [0, 100]; without a parsed judge score it is the heuristic, and a judge score in range is taken as is |
| ConfidenceScorer.FormatHistory | src/agents/confidence_scorer.py:129-139 | no history renders as "[]"; otherwise the last three turns as "role: text" joined by "; " |
| ConfidenceScorer.FormatHistoryIgnoresOlder | src/agents/confidence_scorer.py:139 | with three or more recent turns, older history never changes the rendering |
| ConfidenceScorer.FormatHistorySingle | src/agents/confidence_scorer.py:132-139 | a single turn renders as its own "role: text" line with no separator |
| Recovery.ClarificationText | src/agents/dialogue_manager.py:290-320 | never empty: the model's text stripped when it produced non-blank text, otherwise the fixed request for more detail |
| Recovery.RungFor | src/agents/dialogue_manager.py:277-288 | count 1 clarifies; from count 1 on, escalation happens exactly at or beyond the escalation point; every other count above 1 gets the menu |
| Recovery.HandleNluFailure | src/agents/dialogue_manager.py:260-288 | the failure is counted; the count reached picks the clarification (1), the menu (2 with more than one retry allowed), escalation (at the limit) or the menu; escalation puts the counter back to 0; nothing else in the state changes |
| Recovery.CheckAndReset | src/agents/dialogue_manager.py:354-357 | a confident turn after failures resets the counter; any other turn leaves the state as it is |
| Recovery.EscalationPoint | src/agents/dialogue_manager.py:277-285 | the count that escalates is at least 2 and at least the retry limit |
| Recovery.DefaultLadder | src/agents/dialogue_manager.py:270-288 | with the default two retries, three failures in a row clarify, offer the menu, then escalate with the counter back at 0 |
| Recovery.NoEscalationBefore | src/agents/dialogue_manager.py:277-288 | a failure below the escalation point never escalates and only adds one to the counter |
| Recovery.EscalationAtPoint | src/agents/dialogue_manager.py:283-285 | the failure that reaches the escalation point escalates and resets the counter |
| Recovery.RetryStaysBelowPoint | src/agents/dialogue_manager.py:270-288 | a counter between 0 and the escalation point stays there after any failure |
| Auth.Merge | src/agents/dialogue_manager.py:367-375 | a credential given this turn wins; otherwise the one waiting in its partial slot, if any |
| Auth.DropPartials | src/agents/dialogue_manager.py:387-390 | both partial credential slots are gone; every other slot and field is unchanged |
| Auth.Reply | src/agents/dialogue_manager.py:414-422 | a failure whose only error is the text, whose output carries the text and the serialised state, and whose metadata is the given flags plus a timestamp |
| Auth.Authenticate | src/agents/dialogue_manager.py:359-477 | after merging this turn's input with the partial slots, both credentials, only the name, only the date of birth and neither each go to their own case |
| Auth.WithBoth | src/agents/dialogue_manager.py:380-422 | the patient is bound exactly when a record matches name and date of birth, with the partial slots dropped and the step cleared; otherwise registration is offered |
| Auth.OfferRegistration | src/agents/dialogue_manager.py:393-422 | the credentials are kept as registration fields, the partials dropped and the step set to registration_offered, with auth_failed and registration_offered flags; a blank name raises the index error |
| Auth.OfferMetadata | src/agents/dialogue_manager.py:417-421 | the flags say the match failed and registration was offered, and the credentials appear only masked |
| Auth.PromptMetadata | src/agents/dialogue_manager.py:436-477 | the flags say a prompt was made, which credential is expected and which half is held, and never that a match failed |
| Auth.NameOnly | src/agents/dialogue_manager.py:424-440 | the name is kept in its partial slot, the step becomes awaiting_auth and the date of birth is asked for; a blank name raises the index error |
| Auth.DobOnly | src/agents/dialogue_manager.py:442-455 | the date of birth is kept in its partial slot, the step becomes awaiting_auth and the name is asked for |
| Auth.Neither | src/agents/dialogue_manager.py:457-477 | the step becomes awaiting_auth and the name is asked for, with the purpose taken from the current intent in demo mode |
| Auth.OfferFlags | src/agents/dialogue_manager.py:414-422 | the registration-offer flags survive into the reply and it is not marked as a prompt |
| Auth.AskFlags | src/agents/dialogue_manager.py:436-477 | a prompt reply is flagged as a prompt with the expected credential and not as a failed match |
| Auth.AuthenticatedIffFound | src/agents/dialogue_manager.py:380-391 | the turn carries on past verification exactly when both merged credentials are known and a record matches them |
| Auth.PromptedShape | src/agents/dialogue_manager.py:393-477 | every reply of verification is a failure carrying the state it leaves, which is awaiting credentials or offering registration |
| Registration.ResultOf | src/agents/dialogue_manager.py:489-603 | SUCCESS exactly when the step went through, FAILURE otherwise; the output holds the text and the serialised state, plus the new patient's id after a creation |
| Registration.Refuse | src/agents/dialogue_manager.py:507-509 | a refused answer carries its message and leaves the state and the patient list as they were |
| Registration.Register | src/agents/dialogue_manager.py:479-603 | each registration step goes to its own handler; an unknown step fails with "Something went wrong", clearing the registration data and the step |
| Registration.Offered | src/agents/dialogue_manager.py:489-502 | any accepting word moves straight to the phone number; anything else declines, clearing the registration data and the step |
| Registration.CollectName | src/agents/dialogue_manager.py:504-514 | the name (the explicit input, else the stripped answer) is accepted exactly when it validates, stored cleaned, and the date of birth is asked for; an invalid name is refused with the validator's message |
| Registration.CollectDob | src/agents/dialogue_manager.py:516-544 | no date (neither given nor parsed) is refused; a name and date already on file bind that patient and end registration; otherwise the date is stored and the phone number asked for |
| Registration.CollectPhone | src/agents/dialogue_manager.py:546-556 | accepted exactly when the stripped answer validates, stored normalised, and the e-mail is asked for; otherwise refused with the validator's message |
| Registration.CollectEmail | src/agents/dialogue_manager.py:558-596 | an invalid e-mail is refused; a refusal by the records agent is reported as "Registration error: " and its reason, changing nothing; a creation binds the new patient, clears the registration, and greets them by first name |
| Registration.CreatedHasFirstWord | src/agents/dialogue_manager.py:575 | a created patient's name always has a first word, so the greeting cannot raise |
| Registration.NamedPatientHasFirstWord | src/utils/validation.py:97-110 | a name that passes validation is not blank once stripped |
| Registration.StepsAdvance | src/agents/dialogue_manager.py:489-603 | registration only moves forward through name, date of birth, phone and e-mail, stays put after a refusal, and leaves the steps only with the registration data cleared |
| Registration.KeepsHistory | src/agents/dialogue_manager.py:479-603 | registration never changes the history, the current intent or the failure count |
| Registration.RefusalChangesNothing | src/agents/dialogue_manager.py:489-603 | on every registration step a refused answer leaves the state and the patient list unchanged |
| Registration.CreationIsReported | src/agents/dialogue_manager.py:565-591 | the patient list grows only on the e-mail step, by exactly one appended record whose id is reported and bound, and which is then found by id and by name and date of birth |
| Registration.GrowthIsCreation | src/agents/dialogue_manager.py:565-591 | a changed patient list means one record was appended, the step succeeded and the conversation is bound to the new id |
| Registration.NoDoubleRegistration | src/agents/dialogue_manager.py:565-596 | repeating a successful e-mail step is refused with the duplicate-patient message |
| Routing.Respond | src/agents/base_agent.py:163-206 | SUCCESS or FAILURE as asked, with the text in the output next to the extras, and the metadata kept |
| Routing.Greeting | src/agents/dialogue_manager.py:617-619 | "there" for no patient or an unknown one; otherwise the first word of the name, or the index error when the name is blank |
| Routing.Route | src/agents/dialogue_manager.py:605-669 | FAQ goes to the knowledge agent, InfoQuery, scheduling, rescheduling and cancelling to their handlers, and every other intent to the fallback |
| Routing.Unhandled | src/agents/dialogue_manager.py:663-669 | PARTIAL with the fallback text, the "Unhandled intent" warning and the intent in the metadata; state and schedule unchanged |
| Routing.LabsReply | src/agents/dialogue_manager.py:625-652 | SUCCESS with the explanation and the results; follow_up_suggested says whether some interpretation mentions a follow-up word, and the prompt is included exactly when suggested and produced |
| Routing.InfoQuery | src/agents/dialogue_manager.py:615-652 | an unknown patient raises the records agent's error and a blank name the index error; otherwise "No lab results found." with empty data, or the explained results |
| Routing.Schedule | src/agents/dialogue_manager.py:671-716 | the greeting comes first; a chosen slot is booked, otherwise the doctor's open slots are offered |
| Routing.BookRoute | src/agents/dialogue_manager.py:676-689 | a refused booking raises its error; otherwise the schedule is the booked one, the state unchanged, and the appointment returned |
| Routing.OfferRoute | src/agents/dialogue_manager.py:691-716 | an unknown doctor raises; no open slot is a FAILURE suggesting another provider; otherwise the offers are returned and the doctor remembered in the slots |
| Routing.RescheduleRoute | src/agents/dialogue_manager.py:718-731 | without both the appointment id and the new slot a FAILURE asks for them; otherwise the scheduling agent's rescheduling, raising its error or returning the moved appointment |
| Routing.CancelRoute | src/agents/dialogue_manager.py:733-755 | the greeting comes first; without an appointment id a FAILURE asks for one; otherwise the scheduling agent's cancellation, raising its error or returning the canceled appointment |
| Routing.RouteFrame | src/agents/dialogue_manager.py:605-755 | only booking, rescheduling and cancelling change the schedule, and only offering slots changes the state, by remembering the doctor |
| Routing.BookingThroughDialogue | src/agents/dialogue_manager.py:676-689 | a booking through the dialogue leaves the chosen slot booked for the bound patient, and the same request in the next turn raises "Slot already booked" |
| Routing.SlotValue | src/agents/scheduling_agent.py:168-172 | a slot's dictionary holds "patient_id" and "appointment_id" exactly when the slot carries them, with their values; a freed slot has the keys popped rather than set to `None` |
| Dialogue.Execute | src/agents/dialogue_manager.py:73-213 | every turn either answers (the reply is the last history entry and the output carries the final state) or prompts for verification; the FAQ never changes, the schedule changes only with a patient bound, the patient list only by registration; a pending verification is resumed first, its prompt being the reply and its exception escaping; otherwise the reply is the one of the first stage that applies, in the source's order: the recovery ladder's, the registration step's, the registration start, verification then routing, or the reply built from what routing returns |
| Dialogue.Start | src/agents/dialogue_manager.py:96-97 | the retry limit comes from the configuration and the caller's utterance is the last history entry; nothing else changes |
| Dialogue.Resume | src/agents/dialogue_manager.py:100-108 | a pending verification's prompt is the reply with the world untouched, its exception escapes, and on success the rest of the turn runs in the state verification leaves, with the reply of the first stage that applies |
| Dialogue.Understand | src/agents/dialogue_manager.py:108-213 | the reply is the one of the first stage that applies: on low confidence the recovery ladder's; during a registration the step's reply; on a request to register the welcome; for a patient-bound request from an unverified caller verification and then routing; otherwise the reply built from what routing returns for the intent; every outcome is sound |
| Dialogue.HandleFlow | src/agents/dialogue_manager.py:113-150 | for the recovery and registration stages the reply is exactly that stage's: the ladder's on low confidence, the registration step's while one is in progress, the welcome on a request to register; every outcome is sound |
| Dialogue.HandleRequest | src/agents/dialogue_manager.py:152-213 | a patient-bound request from an unverified caller goes through verification before routing; any other request is routed directly; every outcome is sound |
| Dialogue.Answer | src/agents/dialogue_manager.py:204-213 | the reply records the assistant's turn and carries the given status, errors, warnings and metadata, with the text and the final state in the output |
| Dialogue.Output | src/agents/dialogue_manager.py:205-213 | the extras with the reply's text and the final state added |
| Dialogue.LowConfidence | src/agents/dialogue_manager.py:113-130 | PARTIAL with the low-confidence warning and the ladder rung's text; fallback_level is the count after the ladder, nlu_confidence the classifier's; the step and patient are unchanged |
| Dialogue.FallbackMetadata | src/agents/dialogue_manager.py:124-128 | the metadata carries the confidence, the fallback level and the intent |
| Dialogue.RegistrationTurn | src/agents/dialogue_manager.py:132-142 | a registration in progress answers whatever the intent; the FAQ and schedule are untouched and the patient list grows only by a reported, bound registration |
| Dialogue.RegistrationReply | src/agents/dialogue_manager.py:134-142 | the step's text and success are kept, the assistant's turn recorded, the new patient's id reported, and the patient list is the one the step leaves |
| Dialogue.StartRegistration | src/agents/dialogue_manager.py:144-150 | an explicit request to register starts collecting the name with a SUCCESS welcome, returning the state the turn ends in |
| Dialogue.StartRegistrationAsWritten | src/agents/dialogue_manager.py:144-150 | the reply's state snapshot is taken before the assistant's turn is added but shares the history, so it shows the appended turn without the cut to the bound |
| Dialogue.PatientGate | src/agents/dialogue_manager.py:152-213 | for an unverified caller, verification's prompt is the reply with the world untouched, its exception escapes, and once the patient is bound the reply is built from what routing returns for the request in the bound state |
| Dialogue.RouteTurn | src/agents/dialogue_manager.py:160-213 | the reply is built from what routing returns for the intent in this state (scored, the failure count cleared on confident understanding); routing never changes the patient list, the step or the bound patient, and changes the schedule only with a patient bound |
| Dialogue.RouteReply | src/agents/dialogue_manager.py:160-213 | a routing exception escapes; otherwise the routed status, errors and warnings are kept, the text is the scored text, and a confident understanding clears the failure count |
| Dialogue.Score | src/agents/dialogue_manager.py:164-202 | without scoring or text the reply is unchanged; otherwise the score is stored in the metadata and output, and the text is the reply's, possibly followed by the disclaimer |
| Dialogue.Finish | src/agents/dialogue_manager.py:204-213 | the final text replaces the output's, the assistant's turn is recorded, and the routed status, errors, warnings and metadata are kept |
| Dialogue.AuthKeepsHistory | src/agents/dialogue_manager.py:359-477 | verification never touches the history |
| Dialogue.AuthenticatedIsBound | src/agents/dialogue_manager.py:380-391 | successful verification binds a patient and leaves no step pending |
| Dialogue.FlaggedIffBelowThreshold | src/agents/dialogue_manager.py:167-200 | a reply is flagged exactly when it was scored below the threshold and logged (or already flagged), and its text gains the disclaimer exactly when such a reply has disclaimers enabled |
| Dialogue.SnapshotExceedsBound | src/agents/dialogue_manager.py:144-150 | with a full history the returned snapshot reads back with one entry more than the bound, while the state itself holds the bound |
| Dialogue.SnapshotAgreesBelowBound | src/agents/dialogue_manager.py:144-150 | below the bound the source's reply and the corrected one are identical |
| Dialogue.SnapshotWithinBound | src/agents/dialogue_manager.py:144-150 | the corrected reply's snapshot reads back as the final state, within the bound |
| VoiceServer.DigitRun2 | src/cli/voice_server.py:112 | the leading run of at most two digits: all digits, and maximal unless it already has two |
| VoiceServer.MatchNumeric | src/cli/voice_server.py:112 | a match is a month and a day of one or two digits and a four-digit year, separated by "/" or "-", at the start of the text |
| VoiceServer.MatchNumericIffNumericAt | src/cli/voice_server.py:112-114 | the match finds exactly the parts the pattern reads at the start of the text, with each digit run as long as the pattern makes it |
| VoiceServer.ZeroPad | src/cli/voice_server.py:115 | one or two digits become exactly two digits |
| VoiceServer.PadOfValue | src/cli/voice_server.py:115 | padding the integer value of one or two digits to two places gives the digits zero-padded |
| VoiceServer.RenderIsIso | src/cli/voice_server.py:137 | a four-digit year with a month and day below 100 renders as YYYY-MM-DD |
| VoiceServer.MatchDayYear | src/cli/voice_server.py:133 | after the month name, white space, a day of one or two digits, an optional comma, white space and a four-digit year |
| VoiceServer.StartsWithIgnoringCaseIffLower | src/cli/voice_server.py:134 | a month name matches ignoring case exactly when the lower-cased text starts with it |
| VoiceServer.FirstMonthAt | src/cli/voice_server.py:134 | the position found is the leftmost at or after the start where the month name and its day and year match; none when there is no such position |
| VoiceServer.MonthDate | src/cli/voice_server.py:136-137 | the date rendered from a month match is in YYYY-MM-DD form, with the year and day the pattern captured |
| VoiceServer.ParseMonths | src/cli/voice_server.py:132-137 | a month date is found exactly when some month from this one on matches, and the result is in YYYY-MM-DD form |
| VoiceServer.ManualDateParse | src/cli/voice_server.py:105-140 | an exact YYYY-MM-DD input is returned unchanged, and any other result is either the input or in YYYY-MM-DD form |
| VoiceServer.NumericDate | src/cli/voice_server.py:114-115 | the year, then the month and day zero-padded to two digits, in YYYY-MM-DD form |
| VoiceServer.UnchangedIffIsoOrUnrecognised | src/cli/voice_server.py:105-140 | the input comes back unchanged exactly when it is already YYYY-MM-DD or no rule recognises it |
| VoiceServer.ManualDateParseIdempotent | src/cli/voice_server.py:105-140 | parsing a parsed date again changes nothing |
| VoiceServer.NumericDateRendered | src/cli/voice_server.py:111-115 | a text not in ISO form that starts with a month-first numeric date renders as that date with month and day zero-padded |
| VoiceServer.EarliestMonthWins | src/cli/voice_server.py:132-137 | months are tried January to December, so the first month name (in calendar order) that matches decides the date |
| VoiceServer.LeadingNumericDate | src/cli/voice_server.py:111-115 | any text beginning M/D/YYYY or M-D-YYYY, whatever follows, renders as YYYY-MM-DD from those parts |
| VoiceServer.CarriedState | src/cli/voice_server.py:375 | no state in the output gives a fresh conversation; a state that is read back is well formed |
| VoiceServer.NextState | src/cli/voice_server.py:375-383 | only the step is adjusted: a bound patient clears it, otherwise an authentication prompt sets awaiting_auth, otherwise it is as stored |
| VoiceServer.NextStateIsReplyState | src/cli/voice_server.py:375-383 | a reply carrying a well-formed state hands exactly that state, up to the step, to the next request |
| VoiceServer.PromptStateCarried | src/cli/voice_server.py:375-383 | an unauthenticated state that waits for credentials whenever the reply prompted for them is carried over unchanged |
| VoiceServer.CredentialRequestsCarryState | src/cli/voice_server.py:375-383 | after a request for a missing credential the next request gets the dialogue's state as it is |
| VoiceServer.OfferCarriesState | src/cli/voice_server.py:375-383 | after a registration offer the next request gets the dialogue's state, waiting for the answer to the offer |
| VoiceServer.SpokenText | src/cli/voice_server.py:387-391 | the spoken text is always truthy: the output's text when truthy, else its answer when truthy, else the fixed "didn't catch that" line |
| VoiceServer.ReplyTextIsSpoken | src/cli/voice_server.py:387-391 | a reply with text is spoken as that text |
| VoiceServer.ShouldEnd | src/cli/voice_server.py:416-419 | "goodbye" in the utterance always ends the call; a SUCCESS or an authentication prompt ends it exactly when the caller said goodbye |
| VoiceServer.CredentialPromptsKeepCallOpen | src/cli/voice_server.py:416-419 | a request for a missing credential keeps the call open unless the caller said goodbye |
| VoiceServer.RegistrationOfferHangsUp | src/cli/voice_server.py:416-419 | the registration offer, a FAILURE without the prompt flag, ends the call whatever the caller said |
| VoiceServer.RefusedRegistrationAnswerHangsUp | src/cli/voice_server.py:416-419 | a registration answer the flow refuses, a FAILURE without the prompt flag, ends the call whatever the caller said |
| VoiceServer.ShouldEndKeepingRegistration | src/cli/voice_server.py:416-419 | the corrected rule: a reply whose carried state is inside the registration flow ends the call exactly when the caller said goodbye; any other reply is treated as the source's rule treats it |
| VoiceServer.RegistrationOfferKeepsCallOpen | src/agents/dialogue_manager.py:414-422 | under the corrected rule the registration offer keeps the call open unless the caller said goodbye |
| VoiceServer.RefusedRegistrationAnswerKeepsCallOpen | src/agents/dialogue_manager.py:504-596 | under the corrected rule a refused answer to a registration question keeps the call open unless the caller said goodbye, since the step is kept and the question is asked again |
| Metrics.Sorted | src/metrics/metrics_aggregator.py:190 | the values in non-decreasing order, a permutation of the input |
| Metrics.InSortedIffIn | src/metrics/metrics_aggregator.py:190 | sorting neither adds nor drops a value |
| Metrics.PercentileIndex | src/metrics/metrics_aggregator.py:191-192 | the index read is always inside the list |
| Metrics.Percentile | src/metrics/metrics_aggregator.py:185-192 | no values give 0; otherwise the result is one of the values |
| Metrics.PercentileAt | src/metrics/metrics_aggregator.py:190-192 | the result is the sorted values' entry at min(floor(n·p/100), n-1) |
| Metrics.PercentileZeroIsMinimum | src/metrics/metrics_aggregator.py:190-192 | the 0th percentile is no larger than any value |
| Metrics.PercentileHundredIsMaximum | src/metrics/metrics_aggregator.py:190-192 | a percentile of 100 or more is no smaller than any value |
| Metrics.IndexAtHundred | src/metrics/metrics_aggregator.py:191-192 | from 100 on, the index is the last one |
| Metrics.IndexMonotone | src/metrics/metrics_aggregator.py:191-192 | a larger percentile never reads an earlier index |
| Metrics.PercentileMonotone | src/metrics/metrics_aggregator.py:185-192 | the percentile never decreases as p grows |
| Metrics.ToInt | src/metrics/metrics_aggregator.py:64 | an integer converts to itself and a non-negative float to its floor |
| Metrics.TurnConfidence | src/metrics/metrics_aggregator.py:51-59 | no score at the top level or in the metadata counts as 1.0; a convertible top-level score counts as itself |
| Metrics.ErrorDescription | src/metrics/metrics_aggregator.py:71-77 | the error recorded is always truthy |
| Metrics.EventErrors | src/metrics/metrics_aggregator.py:71-85 | an event contributes errors exactly when it is an error event, carries a truthy error, or is a timestamped failed call_end |
| Metrics.Step | src/metrics/metrics_aggregator.py:37-85 | the loop body raises exactly on a turn whose metadata is not a dictionary; otherwise it appends the event's errors, one intent and one confidence exactly for a turn, keeps earlier intents, and marks authentication on authentication_success |
| Metrics.LoadSession | src/metrics/metrics_aggregator.py:30-87 | loading raises exactly when some turn's metadata is not a dictionary; otherwise the session is successful exactly when no event reports an error and some event is a turn, with one confidence per turn and authentication exactly when some authentication_success was seen |
| Metrics.CallFailureRecorded | src/metrics/metrics_aggregator.py:82-85 | a timestamped call_end with outcome "failure" leaves "call_failure" as its last error |
| Metrics.MissingConfidenceCountsAsOne | src/metrics/metrics_aggregator.py:51-59 | a turn with no confidence at the top level or in its metadata adds 1.0 |
| Workflow.StatusNamed | src/orchestration/workflow_context.py:13-19 | a status found by name carries exactly that name |
| Workflow.StatusNamedIffName | src/orchestration/workflow_context.py:13-19 | looking a status up by its value finds exactly the member carrying that value |
| Workflow.CompleteIffNotInProgress | src/orchestration/workflow_context.py:154-162 | complete exactly when the status is neither pending nor running; a successful workflow is complete |
| Workflow.New | src/orchestration/workflow_context.py:38-45 | a fresh context keeps its id and input, is pending, not complete, and has no results, metadata or errors |
| Workflow.UpdateStepResult | src/orchestration/workflow_context.py:55-64 | the step's name joins the result keys and nothing else in the context changes |
| Workflow.GetStepResult | src/orchestration/workflow_context.py:66-76 | a step with no stored result reads as None |
| Workflow.UpdateThenGet | src/orchestration/workflow_context.py:55-76 | reading a step's result back gives what was stored; other steps' results are as before |
| Workflow.AddError | src/orchestration/workflow_context.py:78-86 | exactly one error is appended at the end, after which the context has errors; nothing else changes |
| Workflow.SetStatus | src/orchestration/workflow_context.py:88-96 | only the status changes |
| Workflow.AddMetadata | src/orchestration/workflow_context.py:98-107 | the key reads back as the value, every other key as before, and nothing else changes |
| Workflow.ErrorsRoundTrip | src/orchestration/workflow_context.py:122-144 | an error list stored in a dictionary reads back unchanged |
| Workflow.ToDict | src/orchestration/workflow_context.py:109-125 | the dictionary has the six non-timestamp keys, with the status as its value text |
| Workflow.FromDict | src/orchestration/workflow_context.py:127-152 | a missing workflow_id or input_data fails; a missing status reads as pending and missing errors as none; a present status is the one named |
| Workflow.FromDictToDict | src/orchestration/workflow_context.py:109-152 | restoring a serialised context gives back its id, input, status, step results, metadata and errors |
| WorkflowEngine.MaxRetriesOf | src/orchestration/workflow_engine.py:39-40 | an absent max_retries is 2 and an integer is taken as is; only integers and booleans are accepted |
| WorkflowEngine.RunFrom | src/orchestration/workflow_engine.py:67-85 | no more calls of execute than the range still allows, none exactly when it allows none, and then the context is returned untouched |
| WorkflowEngine.RunFromCalls | src/orchestration/workflow_engine.py:67-83 | a retry follows only a call that raised, and each retry receives the context the failed call left behind |
| WorkflowEngine.RunFromReturned | src/orchestration/workflow_engine.py:69-71 | the first call that returns ends the run with exactly its context |
| WorkflowEngine.RunFromExhaustedCount | src/orchestration/workflow_engine.py:67-73 | when the last call raises, every call that `range(max_retries + 1)` allows from that attempt on was made |
| WorkflowEngine.RunFromExhausted | src/orchestration/workflow_engine.py:73-80 | when the last call raises, the context it left gets exactly one "Step … failed (attempt k/n): …" error and FAILURE |
| WorkflowEngine.RunAttemptsBounded | src/orchestration/workflow_engine.py:40-71 | execute is called at most max_retries+1 times, never for a negative limit, and a first call that returns ends the run with its context |
| WorkflowEngine.AllAttemptsFailing | src/orchestration/workflow_engine.py:67-80 | when every call raises, exactly max_retries+1 calls are made and the run adds exactly one error to what the last left, with status FAILURE |
| WorkflowEngine.ShouldExecute | src/orchestration/workflow_engine.py:87-99 | a plain step always runs; a conditional step answers with its condition |
| WorkflowEngine.Loop | src/orchestration/workflow_engine.py:146-172 | steps run in list order, each at most once, only while the context is not complete and the step's should_execute is truthy; each step gets the context the previous run left |
| WorkflowEngine.LoopRunsEligible | src/orchestration/workflow_engine.py:146-168 | a step reached in an incomplete context whose should_execute is truthy and that finishes in time does run, and the loop goes on from the next step with the context it left |
| WorkflowEngine.LoopPassesOver | src/orchestration/workflow_engine.py:152-155 | every step passed over before or between runs answered should_execute falsily in the context then current, and every run but the last finished in time |
| WorkflowEngine.LoopResult | src/orchestration/workflow_engine.py:157-168 | the loop returns the context its last run left, or that context failed with one timeout error when the run outlived the limit; the start context when nothing ran |
| WorkflowEngine.LoopEnds | src/orchestration/workflow_engine.py:146-182 | without a fault the loop ends on a complete context or after passing over every remaining step; a fault is the exception of a should_execute reached in an incomplete context |
| WorkflowEngine.LoopStopsWhenComplete | src/orchestration/workflow_engine.py:148-150 | once the context is complete no further step runs and it is left as it is |
| WorkflowEngine.SkippedStep | src/orchestration/workflow_engine.py:153-155 | a conditional step whose condition is false is skipped: the loop goes on with the same context and never runs it |
| WorkflowEngine.TimeoutEndsLoop | src/orchestration/workflow_engine.py:158-168 | a step that outlives the limit is the last to run; the workflow fails with exactly one timeout error more than the step left |
| WorkflowEngine.Started | src/orchestration/workflow_engine.py:141-142 | the loop starts RUNNING, not complete, with errors and step results as they were |
| WorkflowEngine.Execute | src/orchestration/workflow_engine.py:130-188 | the result is always complete with completed_at recorded: FAILURE with one more error when an exception escaped, the status a step or timeout left when one completed it, SUCCESS otherwise |
| WorkflowEngine.NothingRunSucceeds | src/orchestration/workflow_engine.py:146-176 | a workflow whose every step is skipped succeeds with its errors and step results as they were |
| WorkflowEngine.SkippedAll | src/orchestration/workflow_engine.py:146-155 | a loop over steps whose conditions are all false runs nothing and keeps the context |
| WorkflowEngine.OverallLimit | src/orchestration/workflow_engine.py:205 | a given non-zero timeout is used as is; an absent or zero timeout falls back to the configured timeout_seconds |
| WorkflowEngine.ExecuteWithTimeout | src/orchestration/workflow_engine.py:190-217 | always complete: an overrun workflow is ABORTED with exactly one "Workflow timed out after Ns" error more; otherwise the result of execute |

## Left out

- Python's Unicode-aware `lower()`, `\d` and `re.IGNORECASE` are not modelled. Case folding and digits are ASCII only, because every keyword, month name and phone digit in the source is ASCII. White space, by contrast, is Python's full `str.isspace` set.
- Model answers, clarification questions, generated prose (`generate_clarification_question`, the `response_generator` functions) and `explain_score` are uninterpreted parameters, because they are calls into a language model.
- Writing flagged responses to their log file is not modelled. Its failure is a parameter, and the flagging decision does not depend on it.
- ConfidenceScorer.ScoreResponse: the judge call and `_parse_score`'s float regex are not modelled. The judge's parsed score arrives as an optional integer in hundredths, and "no score" stands for any failure of the call or of the parse.
- The scorer's `session_id`, its in-memory `flagged_responses` list and all logging are left out, because they do not affect any returned value.
- Floats are not modelled. Scores and thresholds are integer hundredths. FAQ confidence is an exact rational, `overlap / |tokens|`.
- Dates and datetimes are not parsed. DOBs are strings normalised by `Records.NormalizeDate` (see below), and slot start times are comparable integers. `dateutil` fuzzy parsing and `strftime` are parameters or are left out.
- Records.NormalizeDate: approximates `datetime.fromisoformat(value).date().isoformat()` by its common case: YYYY-MM-DD with month 1-12 and day 1-31, alone or followed by 'T' or ' ', becomes its first ten characters. It does not check the day against the month ("1985-02-31T00:00" becomes "1985-02-31" where Python keeps the text) or the time after the separator ("1985-04-12Tjunk"). It does not accept other one-character separators ("1985-04-12x10:00") or the basic form "19850412" that newer Pythons normalise. Full ISO 8601 parsing is left out, so lookups and duplicate checks can differ from the source on such inputs.
- Records.CreatePatient: saving the patient list to disk (`self.data_loader.save_patients`, src/agents/records_agent.py:205-209) is not modelled, because it is file I/O. In the source an `IOError` from that save comes after the in-memory append. The registration turn catches only `ValueError` (src/agents/dialogue_manager.py:593), so the error escapes the turn with the patient already in the list. In the model a creation that passes validation and the duplicate check always succeeds.
- `uuid4` in `book_appointment` is not modelled: the fresh appointment id is a parameter.
- Partial in-place mutation before an exception is not modelled. A turn that raises is `Raised(message)` with no state; in the source, mutations made to the caller's state object before the raise would remain.
- A `None` DOB or registration field is read as absent or empty, as the source's truthiness tests do. An `InfoQuery` whose record has no name is read the same way.
- Registration.CollectName: a `patient_name` key present with the value `None` cannot be expressed, because `TurnInput` has no way to tell it from an absent key. At src/agents/dialogue_manager.py:506, `input_data.get("patient_name", utterance.strip())` keeps such a `None`, and `validate_name` refuses it with "Name is required" (src/utils/validation.py:97-98). The model instead validates the stripped utterance, as for an absent key. The voice server, the caller the model follows, only sets `patient_name` when the extracted name is truthy (src/cli/voice_server.py:351-352), so it never sends an explicit `None`.
- Registration.Field: a registration field that was never collected is passed to `create_patient` as the empty string rather than `None`. Both fail the same validation, so the outcome is unchanged.
- Appointment `type` and `reason` and the patient record's free-form extras are not modelled, because no modelled rule reads them.
- The `state` entries some routed results carry in their output are omitted, except where the model states something about them: the registration start, and the `Dialogue.SnapshotExceedsBound` finding.
- The records agent and the scheduling agent each hold their own patient list, as the source constructs them. Keeping the two in step is not modelled, because the source does not do it either.
- Sorting.SortBy: the model does not state stability, only order and permutation, because the source sorts by start time alone.
- The records and scheduling agents' `execute` dispatchers are not modelled, because the dialogue manager calls the store operations directly. The FAQ agent's `execute` is modelled.
- Conversation-state retry fields (`retry_count`, `max_retries`) are part of the state record and of its dictionary form, under the keys "retry_count" and "max_retries", although `src/utils/conversation_state.py` does not declare them. `src/agents/dialogue_manager.py` reads and writes them, so the model follows that file.
- ConversationState.IncrementRetry: the failed intent and utterance that `handle_nlu_failure` passes to `increment_retry` are not kept. No source file defines `increment_retry` or a field to hold them, and nothing reads them back.
- Spoken-language parts of the voice server are not modelled: the Flask routes, the `call_state` globals, `_run_async`, configuration loading, logging, the regex and LLM extraction of name and DOB, and the `dateutil`-based `_normalize_date`. Only `_manual_date_parse`, the step fix-up, the spoken-text fallback and the hang-up rule are modelled.
- Metrics.Percentile: values are integers rather than floats, `p` is a natural number (negative percentiles are not modelled), and `len * p / 100` is computed exactly rather than in floating point.
- The metrics aggregator's file reading, modification times, time windows, latency averages and rates are not modelled. Events are given already decoded as JSON objects. Undecodable lines, which the source skips, and non-object lines, on which the source's `event.get` raises, are outside the model. Numeric text parsing is a parameter (`Metrics.Conversions`).
- Wall-clock timestamps (`created_at`, `updated_at`, `started_at`, `completed_at`, result timestamps) are string parameters rather than clock reads.
- Workflow.FromDict: a field whose type differs from the declared one (a non-string identifier, a non-list error list) makes the result absent. Python would build an ill-typed context instead. Timestamps are not modelled, so a truthy but malformed "created_at" or "updated_at", on which `fromisoformat` raises, is not a failure case here.
- WorkflowEngine.MaxRetriesOf: reads a step's configured retry limit, and is absent for a non-integer `max_retries`. A step with such a limit is outside the model, because `Step.maxRetries` is an integer. In the source, `range(self.max_retries + 1)` raises `TypeError` inside `run`, and `execute` records "Workflow execution failed: …" with FAILURE.
- asyncio is not modelled: the exponential-backoff sleeps, the per-step `wait_for` and `_retry_with_backoff` in `base_agent.py`. Conditions and step bodies are pure functions of the context, and a step's timeout is a parameter giving the context it leaves.
- WorkflowEngine.ExecuteWithTimeout: whether the whole run outlives its limit is a parameter (`overrun`), because timing is not modelled.
- Python's `OverflowError` on an infinite float and other float-conversion failures do not arise, because there are no floats.
- Concurrency is not modelled: the patient and schedule collections are unsynchronised in the source, and the model runs one call at a time.
- Dialogue.Execute: on an explicit request to register, the turn uses the corrected `Dialogue.StartRegistration`, so its reply carries the state the turn ends in. With a full history the source instead returns a snapshot holding 21 turns. That behaviour is modelled only by `Dialogue.StartRegistrationAsWritten` (see Findings).
- Dialogue.Understand: uses the corrected `Dialogue.StartRegistration` for the same reason as `Dialogue.Execute`.

## Findings

| source | as written | input that shows it | evidently intended | confidence | as-written member | corrected member |
|---|---|---|---|---|---|---|
| src/agents/dialogue_manager.py:144-150 | the explicit-registration branch puts `state.to_dict()` into its output before `add_turn`. The dictionary shares the history list, so it sees the appended assistant turn. When `add_turn` then re-binds the history to the last 20 turns, the snapshot keeps all 21 | a state with 20 history entries (the user's turn already recorded) whose utterance classifies as `RegisterNewPatient` | the returned state is the state the turn ends in, within the 20-turn bound | not executed | `Dialogue.StartRegistrationAsWritten`, `Dialogue.SnapshotExceedsBound` | `Dialogue.StartRegistration`, `Dialogue.SnapshotWithinBound` |
| src/cli/voice_server.py:416-419 | the call ends on any FAILURE whose metadata lacks `auth_prompted`. The registration offer (src/agents/dialogue_manager.py:414-422) and every refused registration answer are such failures, so the caller hangs up on the question they were just asked | a caller whose name and date of birth match no record hears the registration offer, and the call then ends. Or, while registering, a caller answers the name question with a single word | a reply that leaves the caller inside the registration flow keeps the call open, as a request for credentials does | not executed | `VoiceServer.RegistrationOfferHangsUp`, `VoiceServer.RefusedRegistrationAnswerHangsUp` | `VoiceServer.ShouldEndKeepingRegistration`, `VoiceServer.RegistrationOfferKeepsCallOpen`, `VoiceServer.RefusedRegistrationAnswerKeepsCallOpen` |
