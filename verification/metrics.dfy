/** The metrics aggregator's pure parts: the percentile it reports for latencies, and the
    classification of one session's logged events into turns, confidences, errors and the
    session's success. */
module Metrics {
  import opened Wrappers
  import opened Values
  import opened Sorting

  // ---------------------------------------------------------------- percentile

  function Id(x: int): int {
    x
  }

  /** `sorted(values)`. */
  function Sorted(values: seq<int>): (r: seq<int>)
    ensures |r| == |values| && multiset(r) == multiset(values)
    ensures forall i, j :: 0 <= i < j < |r| ==> r[i] <= r[j]
  {
    var r := SortBy(values, Id);
    assert SortedBy(r, Id);
    r
  }

  lemma InSortedIffIn(values: seq<int>, x: int)
    ensures x in Sorted(values) <==> x in values
  {
    assert x in Sorted(values) <==> x in multiset(Sorted(values));
    assert x in values <==> x in multiset(values);
  }

  /** The position `_percentile` reads: `int(n * p / 100)`, capped at the last element. */
  function PercentileIndex(n: nat, p: nat): (k: nat)
    requires n > 0
    ensures k < n
  {
    var index := n * p / 100;
    if index < n - 1 then index else n - 1
  }

  /** `_percentile(values, p)`: 0.0 for no values, otherwise the element of the sorted values
      at `PercentileIndex`. */
  function Percentile(values: seq<int>, p: nat): (r: int)
    ensures values == [] ==> r == 0
    ensures values != [] ==> r in values
  {
    if values == [] then 0
    else
      var sorted := Sorted(values);
      InSortedIffIn(values, sorted[PercentileIndex(|values|, p)]);
      sorted[PercentileIndex(|values|, p)]
  }

  lemma PercentileAt(values: seq<int>, p: nat)
    requires values != []
    ensures Percentile(values, p) == Sorted(values)[PercentileIndex(|values|, p)]
  {
  }

  /** Every value is at least the 0th percentile: that is the smallest value. */
  lemma PercentileZeroIsMinimum(values: seq<int>, x: int)
    requires x in values
    ensures Percentile(values, 0) <= x
  {
    InSortedIffIn(values, x);
    var sorted := Sorted(values);
    var j :| 0 <= j < |sorted| && sorted[j] == x;
    PercentileAt(values, 0);
    assert PercentileIndex(|values|, 0) == 0;
  }

  /** Every value is at most the 100th (or any higher) percentile: that is the largest value. */
  lemma PercentileHundredIsMaximum(values: seq<int>, p: nat, x: int)
    requires x in values && p >= 100
    ensures x <= Percentile(values, p)
  {
    InSortedIffIn(values, x);
    var sorted := Sorted(values);
    var j :| 0 <= j < |sorted| && sorted[j] == x;
    PercentileAt(values, p);
    IndexAtHundred(|values|, p);
  }

  lemma IndexAtHundred(n: nat, p: nat)
    requires n > 0 && p >= 100
    ensures PercentileIndex(n, p) == n - 1
  {
    var extra := n * (p - 100);
    assert n * p == n * 100 + extra;
    assert (n * 100 + extra) / 100 == n + extra / 100;
  }

  lemma IndexMonotone(n: nat, p: nat, q: nat)
    requires n > 0 && p <= q
    ensures PercentileIndex(n, p) <= PercentileIndex(n, q)
  {
    assert n * p <= n * q;
  }

  /** A higher percentile never reports a smaller value. */
  lemma PercentileMonotone(values: seq<int>, p: nat, q: nat)
    requires p <= q
    ensures Percentile(values, p) <= Percentile(values, q)
  {
    if values != [] {
      IndexMonotone(|values|, p, q);
    }
  }

  // ---------------------------------------------------------------- session events

  /** What one session's events add up to. */
  datatype Tally = Tally(
    intents: seq<Value>,
    confidences: seq<real>,
    errors: seq<Value>,
    authenticated: bool,
    retryCounts: seq<int>)

  const EmptyTally := Tally([], [], [], false, [])

  /** `event.get("event")`, compared with a name. */
  predicate Named(e: map<string, Value>, name: string) {
    Get(e, "event") == VStr(name)
  }

  /** `event.get("metadata", {})`; a present value that is not a dictionary makes the next
      `.get` raise. */
  function MetadataOf(e: map<string, Value>): Option<map<string, Value>> {
    if "metadata" !in e then Some(map[])
    else if e["metadata"].VMap? then Some(e["metadata"].fields)
    else None
  }

  /** Python's `float(s)` and `int(s)` on text, whose grammar is not modelled here. */
  datatype Conversions = Conversions(parseFloat: string -> Option<real>, parseInt: string -> Option<int>)

  /** `float(x)`: numbers and booleans convert, text goes through `parseFloat`, anything else
      raises the error the loop catches. */
  function ToFloat(v: Value, conv: Conversions): Option<real> {
    match v
    case VReal(r) => Some(r)
    case VInt(i) => Some(i as real)
    case VBool(b) => Some(if b then 1.0 else 0.0)
    case VStr(s) => conv.parseFloat(s)
    case _ => None
  }

  /** `int(x)`: integers as they are, booleans as 0 or 1, reals truncated toward zero, text
      through `parseInt`; anything else raises the error the loop catches. */
  function ToInt(v: Value, conv: Conversions): (r: Option<int>)
    ensures v.VInt? ==> r == Some(v.i)
    ensures v.VReal? && v.r >= 0.0 ==> r == Some(v.r.Floor)
  {
    match v
    case VInt(i) => Some(i)
    case VBool(b) => Some(if b then 1 else 0)
    case VReal(x) => Some(if x >= 0.0 then x.Floor else -((-x).Floor))
    case VStr(s) => conv.parseInt(s)
    case _ => None
  }

  /** The confidence a turn counts with: the top-level score, else the one in its metadata,
      else 1.0; a score that does not convert also counts as 1.0. */
  function TurnConfidence(e: map<string, Value>, metadata: map<string, Value>, conv: Conversions)
    : (c: real)
    ensures Get(e, "confidence_score") == VNull && Get(metadata, "confidence_score") == VNull ==> c == 1.0
    ensures Get(e, "confidence_score") != VNull && ToFloat(e["confidence_score"], conv).Some? ==>
      c == ToFloat(e["confidence_score"], conv).value
  {
    var raw := if Get(e, "confidence_score") != VNull then Get(e, "confidence_score")
               else if Get(metadata, "confidence_score") != VNull then Get(metadata, "confidence_score")
               else VReal(1.0);
    match ToFloat(raw, conv)
    case Some(c) => c
    case None => 1.0
  }

  /** The error an `error` event records: its first truthy description, else "UnknownError". */
  function ErrorDescription(e: map<string, Value>): (v: Value)
    ensures Truthy(v)
  {
    if Truthy(Get(e, "error")) then Get(e, "error")
    else if Truthy(Get(e, "error_type")) then Get(e, "error_type")
    else if Truthy(Get(e, "error_message")) then Get(e, "error_message")
    else VStr("UnknownError")
  }

  /** A turn event whose metadata is present but not a dictionary: reading it raises. */
  predicate BreaksLoad(e: map<string, Value>) {
    Named(e, "turn") && MetadataOf(e).None?
  }

  /** The events that leave an error behind: an `error` event, any other event with a truthy
      "error", and a timestamped `call_end` whose outcome is "failure". */
  predicate ReportsError(e: map<string, Value>) {
    || Named(e, "error")
    || Truthy(Get(e, "error"))
    || (Named(e, "call_end") && Truthy(Get(e, "timestamp")) && Get(e, "outcome") == VStr("failure"))
  }

  /** The errors one event contributes, in the order the loop appends them. */
  function EventErrors(e: map<string, Value>): (errs: seq<Value>)
    ensures errs == [] <==> !ReportsError(e)
  {
    var own := if Named(e, "error") then [ErrorDescription(e)] else [];
    var carried := if Truthy(Get(e, "error")) && !Named(e, "error") then [Get(e, "error")] else [];
    var ended := if Named(e, "call_end") && Truthy(Get(e, "timestamp")) && Get(e, "outcome") == VStr("failure")
                 then [VStr("call_failure")] else [];
    own + carried + ended
  }

  /** One pass of the loop body over a parsed event; `None` when it raises. */
  function Step(t: Tally, e: map<string, Value>, conv: Conversions): (r: Option<Tally>)
    ensures r.None? <==> BreaksLoad(e)
    ensures r.Some? ==> r.value.errors == t.errors + EventErrors(e)
    ensures r.Some? ==> (|r.value.intents| == |t.intents| + 1 <==> Named(e, "turn"))
    ensures r.Some? ==> |r.value.intents| >= |t.intents| && r.value.intents[..|t.intents|] == t.intents
    ensures r.Some? ==> |r.value.confidences| - |t.confidences| == |r.value.intents| - |t.intents|
    ensures r.Some? ==> (r.value.authenticated <==> t.authenticated || Named(e, "authentication_success"))
  {
    var turn := Named(e, "turn");
    if turn && MetadataOf(e).None? then None
    else
      var intents := if turn then t.intents + [if "intent" in e then e["intent"] else VStr("Unknown")] else t.intents;
      var confidences :=
        if turn then t.confidences + [TurnConfidence(e, MetadataOf(e).value, conv)] else t.confidences;
      var retry := if turn then Get(MetadataOf(e).value, "retry_count") else VNull;
      var retryCounts := if retry != VNull && ToInt(retry, conv).Some? then t.retryCounts + [ToInt(retry, conv).value]
                         else t.retryCounts;
      Some(Tally(intents, confidences, t.errors + EventErrors(e),
                 t.authenticated || Named(e, "authentication_success"), retryCounts))
  }

  /** `len(errors) == 0 and len(intents) > 0`. */
  predicate Successful(t: Tally) {
    |t.errors| == 0 && |t.intents| > 0
  }

  /** The loop of `load_session_metrics` over the parsed events, in order: it raises exactly when
      some turn carries metadata that is not a dictionary; otherwise the session is successful
      exactly when no event reports an error and at least one event is a turn, every turn
      contributes one confidence, and the patient counts as authenticated once any
      `authentication_success` event is seen. */
  method LoadSession(events: seq<map<string, Value>>, conv: Conversions) returns (r: Option<Tally>)
    ensures r.None? <==> exists i :: 0 <= i < |events| && BreaksLoad(events[i])
    ensures r.Some? ==> (|r.value.errors| == 0 <==> forall i :: 0 <= i < |events| ==> !ReportsError(events[i]))
    ensures r.Some? ==> (|r.value.intents| > 0 <==> exists i :: 0 <= i < |events| && Named(events[i], "turn"))
    ensures r.Some? ==> |r.value.confidences| == |r.value.intents|
    ensures r.Some? ==>
      (r.value.authenticated <==> exists i :: 0 <= i < |events| && Named(events[i], "authentication_success"))
    ensures r.Some? ==>
      (Successful(r.value) <==>
         (forall i :: 0 <= i < |events| ==> !ReportsError(events[i]))
         && (exists i :: 0 <= i < |events| && Named(events[i], "turn")))
  {
    var t := EmptyTally;
    var i := 0;
    while i < |events|
      invariant 0 <= i <= |events|
      invariant forall j :: 0 <= j < i ==> !BreaksLoad(events[j])
      invariant |t.errors| == 0 <==> forall j :: 0 <= j < i ==> !ReportsError(events[j])
      invariant |t.intents| > 0 <==> exists j :: 0 <= j < i && Named(events[j], "turn")
      invariant |t.confidences| == |t.intents|
      invariant t.authenticated <==> exists j :: 0 <= j < i && Named(events[j], "authentication_success")
    {
      var next := Step(t, events[i], conv);
      if next.None? {
        return None;
      }
      t := next.value;
      i := i + 1;
    }
    return Some(t);
  }

  /** A timestamped `call_end` with outcome "failure" leaves "call_failure" as the last error it
      contributes. */
  lemma CallFailureRecorded(t: Tally, e: map<string, Value>, conv: Conversions)
    requires Named(e, "call_end") && Truthy(Get(e, "timestamp")) && Get(e, "outcome") == VStr("failure")
    ensures Step(t, e, conv).Some?
    ensures var errs := Step(t, e, conv).value.errors;
      |errs| > |t.errors| && errs[|errs| - 1] == VStr("call_failure")
  {
  }

  /** A turn with no score at the top level nor in its metadata counts as fully confident. */
  lemma MissingConfidenceCountsAsOne(t: Tally, e: map<string, Value>, conv: Conversions)
    requires Named(e, "turn") && Get(e, "confidence_score") == VNull
    requires MetadataOf(e).Some? && Get(MetadataOf(e).value, "confidence_score") == VNull
    ensures Step(t, e, conv).Some?
    ensures Step(t, e, conv).value.confidences == t.confidences + [1.0]
  {
  }
}
