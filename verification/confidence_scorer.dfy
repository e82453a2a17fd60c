/** The response-quality scorer: the judge score when the judge answers, otherwise a keyword
    heuristic, and the rule that flags a response for human review. Scores are integer hundredths
    (0.75 is 75). */
module ConfidenceScorer {
  import opened Text
  import opened Wrappers
  import ConversationState

  const DefaultThreshold := 70
  const EmptyResponseScore := 10
  const BaseScore := 75
  const HedgePenalty := 20
  const IntentBonus := 5
  const EntityBonus := 2
  const ShortPenalty := 25
  const LongPenalty := 5
  /** Fewer words than this is a short answer; more than `LongWords` a long one. */
  const ShortWords := 4
  const LongWords := 120
  const HedgePhrases := ["not sure", "unsure", "maybe", "perhaps"]

  /** `should_flag_for_review`. */
  predicate ShouldFlag(score: int, threshold: int) {
    score < threshold
  }

  function Clamp(x: int): (r: int)
    ensures 0 <= r <= 100
    ensures 0 <= x <= 100 ==> r == x
    ensures x < 0 ==> r == 0
    ensures x > 100 ==> r == 100
  {
    if x < 0 then 0 else if x > 100 then 100 else x
  }

  /** The entity keys whose non-empty value appears, lower-cased, in the response. */
  function EntityHits(lowerResponse: string, entities: map<string, string>): set<string> {
    set k | k in entities && entities[k] != [] && Contains(lowerResponse, Lower(entities[k]))
  }

  predicate Hedged(lowerResponse: string) {
    ContainsAny(lowerResponse, HedgePhrases)
  }

  /** The intent is named in the response; "other" and the empty intent never count. */
  predicate MentionsIntent(lowerResponse: string, intent: string) {
    var i := Lower(intent);
    i != [] && i != "other" && Contains(lowerResponse, i)
  }

  function LengthAdjustment(response: string): int {
    var n := |Words(response)|;
    if n < ShortWords then -ShortPenalty else if n > LongWords then -LongPenalty else 0
  }

  /** `_heuristic_score`: 75, less 20 for a hedge, plus 5 for naming the intent and 2 per
      entity value mentioned, less 25 for a short or 5 for a long answer, clamped to [0, 100].
      The empty response scores 10. */
  function HeuristicScore(response: string, intent: string, entities: map<string, string>): (r: int)
    ensures 0 <= r <= 100
    ensures response == [] ==> r == EmptyResponseScore
    ensures response == [] ==> ShouldFlag(r, DefaultThreshold)
    // a plain answer of ordinary length is never flagged
    ensures (response != [] && !Hedged(Lower(response)) && LengthAdjustment(response) == 0) ==>
      r >= BaseScore && !ShouldFlag(r, DefaultThreshold)
    // with no entity mentioned, a hedge or a short answer is always flagged
    ensures (response != [] && EntityHits(Lower(response), entities) == {}
             && (Hedged(Lower(response)) || |Words(response)| < ShortWords)) ==>
      ShouldFlag(r, DefaultThreshold)
    ensures (response != [] && Hedged(Lower(response))) ==> r <= BaseScore - HedgePenalty + IntentBonus + EntityBonus * |entities|
  {
    if response == [] then EmptyResponseScore
    else
      var lower := Lower(response);
      var hits := EntityHits(lower, entities);
      HitsNoMoreThanEntities(lower, entities);
      var raw := BaseScore
        - (if Hedged(lower) then HedgePenalty else 0)
        + (if MentionsIntent(lower, intent) then IntentBonus else 0)
        + EntityBonus * |hits|
        + LengthAdjustment(response);
      Clamp(raw)
  }

  lemma HitsNoMoreThanEntities(lowerResponse: string, entities: map<string, string>)
    ensures |EntityHits(lowerResponse, entities)| <= |entities|
  {
    var hits := EntityHits(lowerResponse, entities);
    assert hits <= entities.Keys;
    SubsetNoLarger(hits, entities.Keys);
  }

  lemma {:induction false} SubsetNoLarger(a: set<string>, b: set<string>)
    requires a <= b
    ensures |a| <= |b|
    decreases |b|
  {
    if a != {} {
      var x :| x in a;
      SubsetNoLarger(a - {x}, b - {x});
    }
  }

  /** `score_response`: the judge's score clamped to [0, 100] when the judge answers with a
      number; on any failure of the call or of parsing (`judge == None`) the heuristic. */
  function ScoreResponse(judge: Option<int>, response: string, intent: string, entities: map<string, string>): (r: int)
    ensures 0 <= r <= 100
    ensures judge.None? ==> r == HeuristicScore(response, intent, entities)
    ensures judge.Some? && 0 <= judge.value <= 100 ==> r == judge.value
  {
    match judge
    case Some(s) => Clamp(s)
    case None => HeuristicScore(response, intent, entities)
  }

  /** The last `n` elements of `s` (all of them when there are fewer), as `s[-n:]`. */
  function LastN<T>(s: seq<T>, n: nat): (r: seq<T>)
    ensures |r| == if |s| < n then |s| else n
    ensures r == s[|s| - |r|..]
  {
    if |s| <= n then s else s[|s| - n..]
  }

  /** `_format_history`: "[]" for no history, otherwise "role: text" of the last three turns
      joined with "; ". */
  function FormatHistory(history: seq<ConversationState.Turn>): (r: string)
    ensures history == [] ==> r == "[]"
    ensures history != [] ==> r == Join("; ", TurnLines(LastN(history, 3)))
  {
    if history == [] then "[]" else Join("; ", TurnLines(LastN(history, 3)))
  }

  function TurnLines(turns: seq<ConversationState.Turn>): (r: seq<string>)
    ensures |r| == |turns|
    ensures forall k :: 0 <= k < |turns| ==> r[k] == turns[k].role + ": " + turns[k].text
  {
    seq(|turns|, k requires 0 <= k < |turns| => turns[k].role + ": " + turns[k].text)
  }

  /** Only the last three turns matter: older history never changes the rendering. */
  lemma FormatHistoryIgnoresOlder(older: seq<ConversationState.Turn>, recent: seq<ConversationState.Turn>)
    requires |recent| >= 3
    ensures FormatHistory(older + recent) == FormatHistory(recent)
  {
    var h := older + recent;
    assert LastN(h, 3) == LastN(recent, 3) by {
      assert h[|h| - 3..] == recent[|recent| - 3..];
    }
  }

  /** A single turn renders as its own line, with no separator. */
  lemma FormatHistorySingle(t: ConversationState.Turn)
    ensures FormatHistory([t]) == t.role + ": " + t.text
  {
    assert LastN([t], 3) == [t];
  }
}
