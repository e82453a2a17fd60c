/** The knowledge agent: answers clinic questions by token overlap with the FAQ entries. */
module Knowledge {
  import opened Wrappers
  import opened Text
  import opened Values
  import opened BaseAgent

  /** An FAQ entry; an entry without an answer has `answer == None`. */
  datatype FaqEntry = FaqEntry(question: string, answer: Option<string>)

  datatype FaqAnswer = FaqAnswer(question: string, answer: Option<string>, confidence: real)

  /** Fewer matching tokens than this is treated as a false positive. */
  const MinOverlap: nat := 2
  const NoMatchMessage := "No FAQ match found"
  const NoMatchWarning := "No FAQ matched query"

  // ---------------------------------------------------------------- tokens

  /** A token: a non-empty run of ASCII letters and digits. */
  predicate IsToken(t: string) {
    t != [] && forall i :: 0 <= i < |t| ==> IsAlnum(t[i])
  }

  /** `t` sits at `i` in `s` and cannot be extended on either side. */
  ghost predicate MaximalRunAt(s: string, t: string, i: nat) {
    && IsToken(t)
    && i + |t| <= |s| && s[i..i + |t|] == t
    && (i == 0 || !IsAlnum(s[i - 1]))
    && (i + |t| == |s| || !IsAlnum(s[i + |t|]))
  }

  /** Length of the leading run of letters and digits. */
  function RunLength(s: string): (n: nat)
    ensures n <= |s|
    ensures forall i :: 0 <= i < n ==> IsAlnum(s[i])
    ensures n == |s| || !IsAlnum(s[n])
    decreases |s|
  {
    if |s| == 0 || !IsAlnum(s[0]) then 0 else 1 + RunLength(s[1..])
  }

  /** The maximal letter-and-digit runs of `s`, left to right, as `re.findall(r"[a-zA-Z0-9]+", s)`. */
  function Runs(s: string): (ts: seq<string>)
    ensures forall k :: 0 <= k < |ts| ==> IsToken(ts[k])
    decreases |s|
  {
    if s == [] then []
    else if !IsAlnum(s[0]) then Runs(s[1..])
    else
      var n := RunLength(s);
      [s[..n]] + Runs(s[n..])
  }

  /** Every run found is a maximal run of the text. */
  lemma {:induction false} RunsAreMaximal(s: string, k: nat)
    requires k < |Runs(s)|
    ensures exists i: nat :: MaximalRunAt(s, Runs(s)[k], i)
    decreases |s|
  {
    var t := Runs(s)[k];
    if !IsAlnum(s[0]) {
      RunsAreMaximal(s[1..], k);
      var i: nat :| MaximalRunAt(s[1..], t, i);
      MaximalRunShift(s, 1, t, i);
    } else {
      var n := RunLength(s);
      if k == 0 {
        assert MaximalRunAt(s, t, 0);
      } else {
        RunsAreMaximal(s[n..], k - 1);
        var i: nat :| MaximalRunAt(s[n..], t, i);
        MaximalRunShift(s, n, t, i);
      }
    }
  }

  /** A maximal run of a suffix is a maximal run of the whole text, unless it starts the suffix
      right after a letter or digit. */
  lemma MaximalRunShift(s: string, m: nat, t: string, i: nat)
    requires m <= |s| && MaximalRunAt(s[m..], t, i)
    requires m == 0 || !IsAlnum(s[m - 1]) || !IsAlnum(s[m])
    ensures MaximalRunAt(s, t, m + i)
  {
    assert s[m..][i] == t[0];
    assert s[m + i..m + i + |t|] == s[m..][i..i + |t|];
  }

  /** Every maximal run of the text is found. */
  lemma {:induction false} MaximalRunsAreFound(s: string, t: string, i: nat)
    requires MaximalRunAt(s, t, i)
    ensures t in Runs(s)
    decreases |s|
  {
    assert s[i] == t[0];
    if !IsAlnum(s[0]) {
      assert s[1..][i - 1..i - 1 + |t|] == s[i..i + |t|];
      MaximalRunsAreFound(s[1..], t, i - 1);
    } else {
      var n := RunLength(s);
      if i == 0 {
        assert forall j :: 0 <= j < |t| ==> IsAlnum(s[j]);
        assert |t| == n;
        assert t == s[..n];
      } else {
        assert i > n;
        assert s[n..][i - n..i - n + |t|] == s[i..i + |t|];
        MaximalRunsAreFound(s[n..], t, i - n);
      }
    }
  }

  /** `_tokenize`: the set of lower-cased maximal letter-and-digit runs. */
  function Tokenize(text: string): (r: set<string>)
    ensures forall t :: t in r ==> IsToken(t)
  {
    set t | t in Runs(Lower(text))
  }

  /** A string is a token of the text exactly when it is a maximal run of the lower-cased text. */
  lemma TokenizeIffMaximalRun(text: string, t: string)
    ensures t in Tokenize(text) <==> exists i: nat :: MaximalRunAt(Lower(text), t, i)
  {
    var rs := Runs(Lower(text));
    if t in rs {
      var k :| 0 <= k < |rs| && rs[k] == t;
      RunsAreMaximal(Lower(text), k);
    }
    if exists i: nat :: MaximalRunAt(Lower(text), t, i) {
      var i: nat :| MaximalRunAt(Lower(text), t, i);
      MaximalRunsAreFound(Lower(text), t, i);
    }
  }

  /** A text has no tokens exactly when it contains no ASCII letter or digit. */
  lemma {:induction false} RunsEmptyIff(s: string)
    ensures Runs(s) == [] <==> forall i :: 0 <= i < |s| ==> !IsAlnum(s[i])
    decreases |s|
  {
    if s != [] && !IsAlnum(s[0]) {
      RunsEmptyIff(s[1..]);
      assert forall i :: 1 <= i < |s| ==> s[i] == s[1..][i - 1];
    }
  }

  lemma TokenizeEmptyIff(text: string)
    ensures Tokenize(text) == {} <==> forall i :: 0 <= i < |text| ==> !IsAlnum(text[i])
  {
    var l := Lower(text);
    RunsEmptyIff(l);
    assert forall i :: 0 <= i < |text| ==> (IsAlnum(l[i]) <==> IsAlnum(text[i]));
    if Runs(l) != [] {
      assert Runs(l)[0] in Tokenize(text);
    }
  }

  // ---------------------------------------------------------------- matching

  /** How many query tokens the entry's question shares. */
  function Overlap(tokens: set<string>, e: FaqEntry): nat {
    |tokens * Tokenize(e.question)|
  }

  lemma {:induction false} IntersectionNoLarger(a: set<string>, b: set<string>)
    ensures |a * b| <= |a|
    decreases |a|
  {
    if a != {} {
      var x :| x in a;
      IntersectionNoLarger(a - {x}, b);
      if x in b {
        assert a * b == (a - {x}) * b + {x};
      } else {
        assert a * b == (a - {x}) * b;
      }
    }
  }

  /** The overlap of every entry, in FAQ order. */
  function Scores(faq: seq<FaqEntry>, tokens: set<string>): (sc: seq<nat>)
    ensures |sc| == |faq|
    ensures forall j :: 0 <= j < |faq| ==> sc[j] == Overlap(tokens, faq[j])
  {
    seq(|faq|, j requires 0 <= j < |faq| => Overlap(tokens, faq[j]))
  }

  /** Entry `k` has the largest score, and every earlier entry has a strictly smaller one. */
  ghost predicate IsBest(scores: seq<nat>, k: nat) {
    && k < |scores|
    && (forall j :: 0 <= j < |scores| ==> scores[j] <= scores[k])
    && (forall j :: 0 <= j < k ==> scores[j] < scores[k])
  }

  ghost predicate IsBestEntry(faq: seq<FaqEntry>, tokens: set<string>, k: nat) {
    IsBest(Scores(faq, tokens), k)
  }

  /** The scan of `answer_question`: the best entry so far is replaced only by a strictly larger
      score, starting from no entry and score 0. */
  function BestIndex(scores: seq<nat>): (r: (Option<nat>, nat))
    ensures r.0.None? <==> r.1 == 0
    ensures r.0.None? ==> forall j :: 0 <= j < |scores| ==> scores[j] == 0
    ensures r.0.Some? ==> IsBest(scores, r.0.value) && scores[r.0.value] == r.1
    decreases |scores|
  {
    if scores == [] then (None, 0)
    else
      var n := |scores| - 1;
      var prev := BestIndex(scores[..n]);
      if scores[n] > prev.1 then (Some(n), scores[n]) else prev
  }

  /** `answer_question`. */
  function AnswerQuestion(faq: seq<FaqEntry>, query: string): (r: Option<FaqAnswer>)
    ensures Tokenize(query) == {} ==> r.None?
    ensures r.Some? <==>
      (Tokenize(query) != {} && exists j :: 0 <= j < |faq| && Overlap(Tokenize(query), faq[j]) >= MinOverlap)
    ensures r.Some? ==> 0.0 < r.value.confidence <= 1.0
    ensures r.Some? ==> exists k :: AnswersWith(faq, Tokenize(query), k, r.value)
  {
    var tokens := Tokenize(query);
    if tokens == {} then None
    else
      var best := BestIndex(Scores(faq, tokens));
      BestReachesIff(faq, tokens);
      if best.0.Some? && best.1 >= MinOverlap then
        var k := best.0.value;
        var e := faq[k];
        IntersectionNoLarger(tokens, Tokenize(e.question));
        var a := FaqAnswer(e.question, e.answer, Ratio(best.1, |tokens|));
        assert AnswersWith(faq, tokens, k, a);
        Some(a)
      else None
  }

  /** The answer is entry `k`, the best one, with confidence overlap / number of query tokens. */
  ghost predicate AnswersWith(faq: seq<FaqEntry>, tokens: set<string>, k: nat, a: FaqAnswer) {
    && IsBestEntry(faq, tokens, k)
    && a.question == faq[k].question && a.answer == faq[k].answer
    && tokens != {}
    && a.confidence == Ratio(Overlap(tokens, faq[k]), |tokens|)
  }

  /** `part / whole` as a real; it lies in (0, 1] when 0 < part <= whole. */
  function Ratio(part: nat, whole: nat): (q: real)
    requires whole > 0
    ensures 0 < part <= whole ==> 0.0 < q <= 1.0
  {
    part as real / whole as real
  }

  /** The best score reaches the bar exactly when some entry does. */
  lemma BestReachesIff(faq: seq<FaqEntry>, tokens: set<string>)
    ensures var best := BestIndex(Scores(faq, tokens));
      (best.0.Some? && best.1 >= MinOverlap) <==> exists j :: 0 <= j < |faq| && Overlap(tokens, faq[j]) >= MinOverlap
  {
    var best := BestIndex(Scores(faq, tokens));
    if exists j :: 0 <= j < |faq| && Overlap(tokens, faq[j]) >= MinOverlap {
      var j :| 0 <= j < |faq| && Overlap(tokens, faq[j]) >= MinOverlap;
      assert best.0.Some?;
    }
  }

  /** The knowledge agent's `execute`. */
  function Execute(faq: seq<FaqEntry>, query: string, now: string): (r: AgentResult)
    ensures r.IsSuccess() <==> AnswerQuestion(faq, query).Some?
    ensures r.IsSuccess() ==> var a := AnswerQuestion(faq, query).value;
      r.output == map["question" := VStr(a.question), "answer" := OptStr(a.answer), "confidence" := VReal(a.confidence)]
      && r.warnings == []
    ensures !r.IsSuccess() ==>
      r.status == PARTIAL && r.warnings == [NoMatchWarning] && r.errors == []
      && Get(r.output, "answer") == VNull && Get(r.output, "query") == VStr(ProtectPhi(query))
  {
    match AnswerQuestion(faq, query)
    case Some(a) =>
      SuccessResult(map["question" := VStr(a.question), "answer" := OptStr(a.answer), "confidence" := VReal(a.confidence)], map[], now)
    case None =>
      MakeResult(PARTIAL, map["answer" := VNull, "message" := VStr(NoMatchMessage), "query" := VStr(ProtectPhi(query))],
                 map[], [], [NoMatchWarning], now)
  }
}
