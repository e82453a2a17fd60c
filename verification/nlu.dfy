/** Intent classification: the closed intent vocabulary, the keyword fallback used whenever the
    language model fails, and the confidence estimate used when the model gives none.
    Confidences are integer hundredths (0.85 is 85). */
module Nlu {
  import opened Wrappers
  import opened Text

  const ScheduleIntent := "ScheduleAppointment"
  const RescheduleIntent := "RescheduleAppointment"
  const CancelIntent := "CancelAppointment"
  const InfoQueryIntent := "InfoQuery"
  const FaqIntent := "FAQ"
  const RegisterIntent := "RegisterNewPatient"
  const OtherIntent := "Other"

  const Intents: seq<string> :=
    [ScheduleIntent, RescheduleIntent, CancelIntent, InfoQueryIntent, FaqIntent, RegisterIntent, OtherIntent]

  /** One keyword group of the fallback: any word present selects the intent. */
  datatype Rule = Rule(words: seq<string>, intent: string, confidence: int)

  /** The fallback's keyword groups, in the order they are tried. */
  const Rules: seq<Rule> := [
    Rule(["new patient", "register", "sign up", "first time"], RegisterIntent, 80),
    Rule(["cancel"], CancelIntent, 85),
    Rule(["reschedule", "move"], RescheduleIntent, 80),
    Rule(["book", "schedule", "appointment"], ScheduleIntent, 80),
    Rule(["lab", "result", "medication", "test"], InfoQueryIntent, 75),
    Rule(["hours", "location", "insurance", "faq"], FaqIntent, 70)
  ]

  const NoRuleConfidence := 40

  /** The result of classification as the rest of the system sees it. */
  datatype Classification = Classification(intent: string, entities: map<string, string>, confidence: int)

  /** What the language model returned: a missing intent or confidence is `None`. */
  datatype ModelAnswer = ModelAnswer(intent: Option<string>, entities: map<string, string>, confidence: Option<int>)

  /** Index of the first rule with a keyword in `text`. */
  function FirstRule(rules: seq<Rule>, text: string): (r: Option<nat>)
    ensures r.Some? ==> r.value < |rules| && ContainsAny(text, rules[r.value].words)
    ensures r.Some? ==> forall j :: 0 <= j < r.value ==> !ContainsAny(text, rules[j].words)
    ensures r.None? ==> forall j :: 0 <= j < |rules| ==> !ContainsAny(text, rules[j].words)
    decreases |rules|
  {
    if rules == [] then None
    else if ContainsAny(text, rules[0].words) then Some(0)
    else
      match FirstRule(rules[1..], text)
      case None => None
      case Some(k) => Some(k + 1)
  }

  /** `_fallback_rules`: the first keyword group found in the lower-cased utterance wins; with none,
      the intent is Other at 0.40. */
  function FallbackRules(utterance: string): (r: Classification)
    ensures r.entities == map[]
    ensures r.intent in Intents
    ensures forall j :: 0 <= j < |Rules| && ContainsAny(Lower(utterance), Rules[j].words) ==>
      exists k :: 0 <= k <= j && r.intent == Rules[k].intent && r.confidence == Rules[k].confidence
    ensures forall j :: (0 <= j < |Rules| && ContainsAny(Lower(utterance), Rules[j].words)
                         && forall i :: 0 <= i < j ==> !ContainsAny(Lower(utterance), Rules[i].words)) ==>
      r.intent == Rules[j].intent && r.confidence == Rules[j].confidence
    ensures (forall j :: 0 <= j < |Rules| ==> !ContainsAny(Lower(utterance), Rules[j].words)) ==>
      r == Classification(OtherIntent, map[], NoRuleConfidence)
  {
    match FirstRule(Rules, Lower(utterance))
    case Some(k) => Classification(Rules[k].intent, map[], Rules[k].confidence)
    case None => Classification(OtherIntent, map[], NoRuleConfidence)
  }

  /** `_estimate_confidence`: 0.2 for a blank utterance, 0.5 for Other or no intent, otherwise by
      word count (more than 10: 0.8, more than 5: 0.7, else 0.6). */
  function EstimateConfidence(intent: Option<string>, utterance: string): (c: int)
    ensures Blank(utterance) ==> c == 20
    ensures !Blank(utterance) && (intent.None? || intent.value == OtherIntent) ==> c == 50
    ensures !Blank(utterance) && intent.Some? && intent.value != OtherIntent ==>
      && (|Words(utterance)| > 10 ==> c == 80)
      && (5 < |Words(utterance)| <= 10 ==> c == 70)
      && (|Words(utterance)| <= 5 ==> c == 60)
  {
    if Blank(utterance) then 20
    else if intent.None? || intent.value == OtherIntent then 50
    else
      var n := |Words(utterance)|;
      if n > 10 then 80 else if n > 5 then 70 else 60
  }

  /** `execute`: the model's answer, or the fallback when the model failed (`model == None`);
      a missing confidence is estimated and a missing intent becomes Other. */
  function Classify(utterance: string, model: Option<ModelAnswer>): (r: Classification)
    ensures model.None? ==> r == FallbackRules(utterance)
    ensures model.Some? ==> r.intent == model.value.intent.GetOr(OtherIntent) && r.entities == model.value.entities
    ensures model.Some? && model.value.confidence.Some? ==> r.confidence == model.value.confidence.value
    ensures model.Some? && model.value.confidence.None? ==>
      r.confidence == EstimateConfidence(model.value.intent, utterance)
  {
    match model
    case None => FallbackRules(utterance)
    case Some(a) =>
      var confidence := match a.confidence
        case Some(c) => c
        case None => EstimateConfidence(a.intent, utterance);
      Classification(a.intent.GetOr(OtherIntent), a.entities, confidence)
  }

  /** Under the fallback, the recovery gate (confidence below 0.60) fires exactly for Other. */
  lemma FallbackLowIffOther(utterance: string)
    ensures FallbackRules(utterance).confidence < 60 <==> FallbackRules(utterance).intent == OtherIntent
  {
  }

  /** A keyword is absent from a text that lacks one of its characters. */
  lemma MissingCharNoMatch(s: string, w: string, c: char)
    requires c in w && c !in s
    ensures !Contains(s, w)
  {
    ContainsIffOccurs(s, w);
    forall i | 0 <= i && i + |w| <= |s|
      ensures !OccursAt(s, w, i)
    {
      var k :| 0 <= k < |w| && w[k] == c;
      assert s[i..i + |w|][k] == s[i + k];
    }
  }

  lemma LowerUnchanged(s: string)
    requires forall i :: 0 <= i < |s| ==> !('A' <= s[i] <= 'Z')
    ensures Lower(s) == s
  {
  }

  /** A cancellation keyword wins over every later group, scheduling words included, unless a
      registration keyword is also present. */
  lemma CancelWins(utterance: string)
    requires Contains(Lower(utterance), "cancel")
    requires !ContainsAny(Lower(utterance), Rules[0].words)
    ensures FallbackRules(utterance) == Classification(CancelIntent, map[], 85)
  {
    assert ContainsAny(Lower(utterance), Rules[1].words) by {
      assert Rules[1].words[0] == "cancel";
    }
  }

  /** None of the registration keywords occurs in "cancel my appointment": each contains a
      character ('w', 'g' or 'f') that the text lacks. */
  lemma CancelTextNoRegister(u: string)
    requires u == "cancel my appointment"
    ensures !ContainsAny(u, Rules[0].words)
  {
    var ws := Rules[0].words;
    forall i | 0 <= i < |ws|
      ensures !Contains(u, ws[i])
    {
      if i == 0 {
        assert 'w' !in u;
        MissingCharNoMatch(u, ws[0], 'w');
      } else if i == 1 || i == 2 {
        assert 'g' !in u;
        MissingCharNoMatch(u, ws[i], 'g');
      } else {
        assert 'f' !in u;
        MissingCharNoMatch(u, ws[3], 'f');
      }
    }
  }

  /** "cancel my appointment" is a cancellation although it also mentions "appointment". */
  lemma CancelBeatsAppointment(u: string)
    requires u == "cancel my appointment"
    ensures FallbackRules(u).intent == CancelIntent && FallbackRules(u).confidence == 85
  {
    LowerUnchanged(u);
    CancelTextNoRegister(u);
    assert u[..6] == "cancel";
    CancelWins(u);
  }
}
