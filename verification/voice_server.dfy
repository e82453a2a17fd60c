/** The telephone front end's own logic around a dialogue turn: the fallback date parser it
    applies to spoken dates, how it carries the state into the next request, what it speaks,
    and when it hangs up. */
module VoiceServer {
  import opened Wrappers
  import opened Text
  import opened Values
  import opened BaseAgent
  import opened ConversationState
  import opened DialogueTypes
  import Auth
  import Records
  import Registration
  import Dialogue

  // ---------------------------------------------------------------- manual date parsing

  /** Four digits, a dash, two digits, a dash, two digits. */
  predicate IsoShape(s: string) {
    && |s| == 10
    && AllDigits(s[..4]) && s[4] == '-' && AllDigits(s[5..7]) && s[7] == '-' && AllDigits(s[8..])
  }

  /** `re.match(r"^\d{4}-\d{2}-\d{2}$", s)`: Python's `$` also matches before one final newline. */
  predicate IsoMatch(s: string) {
    IsoShape(s) || (|s| == 11 && s[10] == '\n' && IsoShape(s[..10]))
  }

  predicate IsDateSep(c: char) {
    c == '/' || c == '-'
  }

  /** How many digits `\d{1,2}` takes at the head of `s` when it is followed by a non-digit:
      the greedy match never has to give a digit back, because a shorter match would leave a
      digit where the pattern needs something else. */
  function DigitRun2(s: string): (n: nat)
    ensures n <= 2 && n <= |s|
    ensures AllDigits(s[..n])
    ensures n < 2 ==> n == |s| || !IsDigit(s[n])
  {
    if |s| > 0 && IsDigit(s[0]) then (if |s| > 1 && IsDigit(s[1]) then 2 else 1) else 0
  }

  /** The three groups of a month-first numeric date, as written. */
  datatype DateParts = DateParts(month: string, day: string, year: string)

  /** `s` begins with month, separator, day, separator, year, with one or two digits for month
      and day and four for the year — the pattern `(\d{1,2})[/-](\d{1,2})[/-](\d{4})` stated
      position by position, without any search strategy. */
  predicate NumericAt(s: string, p: DateParts) {
    var k := |p.month|;
    var j := k + 1 + |p.day|;
    && 1 <= |p.month| <= 2 && AllDigits(p.month)
    && 1 <= |p.day| <= 2 && AllDigits(p.day)
    && |p.year| == 4 && AllDigits(p.year)
    && j + 5 <= |s|
    && s[..k] == p.month && IsDateSep(s[k])
    && s[k + 1..j] == p.day && IsDateSep(s[j])
    && s[j + 1..j + 5] == p.year
  }

  /** `re.match(r"(\d{1,2})[/-](\d{1,2})[/-](\d{4})", s)`: anchored at the start only, so any
      text may follow the year. */
  function MatchNumeric(s: string): (r: Option<DateParts>)
    ensures r.Some? ==> NumericAt(s, r.value)
  {
    var m := DigitRun2(s);
    if m == 0 || m == |s| || !IsDateSep(s[m]) then None
    else
      var t := s[m + 1..];
      var d := DigitRun2(t);
      if d == 0 || d == |t| || !IsDateSep(t[d]) then None
      else
        var u := t[d + 1..];
        if |u| < 4 || !AllDigits(u[..4]) then None
        else
          assert s[m + 1..m + 1 + d] == t[..d];
          assert s[m + 1 + d + 1..m + 1 + d + 5] == u[..4];
          Some(DateParts(s[..m], t[..d], u[..4]))
  }

  /** The parser finds a match exactly when the pattern fits, and then the one that fits. */
  lemma MatchNumericIffNumericAt(s: string, p: DateParts)
    ensures MatchNumeric(s) == Some(p) <==> NumericAt(s, p)
  {
    if NumericAt(s, p) {
      var k := |p.month|;
      var j := k + 1 + |p.day|;
      assert s[..k] == p.month;
      assert DigitRun2(s) == k by {
        assert IsDigit(p.month[0]);
        if k == 2 {
          assert IsDigit(p.month[1]);
        }
      }
      var t := s[k + 1..];
      assert t[..|p.day|] == s[k + 1..j];
      assert t[|p.day|] == s[j];
      assert DigitRun2(t) == |p.day| by {
        assert IsDigit(p.day[0]);
        if |p.day| == 2 {
          assert IsDigit(p.day[1]);
        }
      }
      assert t[|p.day| + 1..] == s[j + 1..];
      assert t[|p.day| + 1..][..4] == p.year;
    }
  }

  /** `int(x)` rendered as `:02d`, for one or two digits: a single digit gains a leading zero. */
  function ZeroPad(x: string): (r: string)
    requires 1 <= |x| <= 2 && AllDigits(x)
    ensures |r| == 2 && AllDigits(r)
  {
    if |x| == 1 then ['0'] + x else x
  }

  lemma DigitRoundTrip(c: char)
    requires IsDigit(c)
    ensures DigitChar(DigitValue(c)) == c
  {
  }

  /** The value of one or two digits, digit by digit. */
  lemma TwoDigitValue(x: string)
    requires 1 <= |x| <= 2 && AllDigits(x)
    ensures |x| == 1 ==> DigitsValue(x) == DigitValue(x[0])
    ensures |x| == 2 ==> DigitsValue(x) == 10 * DigitValue(x[0]) + DigitValue(x[1])
    ensures DigitsValue(x) < 100
  {
    if |x| == 1 {
      assert x[..0] == [];
    } else {
      assert x[..1][..0] == [];
      assert DigitsValue(x[..1]) == DigitValue(x[0]);
    }
  }

  lemma PadOfValue(x: string)
    requires 1 <= |x| <= 2 && AllDigits(x)
    ensures Pad2(DigitsValue(x)) == ZeroPad(x)
  {
    TwoDigitValue(x);
    DigitRoundTrip(x[0]);
    DigitRoundTrip(x[|x| - 1]);
    var v := DigitsValue(x);
    if |x| == 2 {
      var a := DigitValue(x[0]);
      var b := DigitValue(x[1]);
      if a == 0 {
        assert x[0] == '0';
        assert NatToString(v) == [DigitChar(b)];
      } else {
        assert v / 10 == a && v % 10 == b;
        assert NatToString(v) == NatToString(a) + [DigitChar(b)];
      }
    }
  }

  /** `f"{year}-{month:02d}-{day:02d}"`. */
  function Render(year: string, month: nat, day: nat): string {
    year + "-" + Pad2(month) + "-" + Pad2(day)
  }

  lemma IsoOfParts(year: string, month: string, day: string)
    requires |year| == 4 && AllDigits(year)
    requires |month| == 2 && AllDigits(month) && |day| == 2 && AllDigits(day)
    ensures IsoShape(year + "-" + month + "-" + day)
  {
    var r := year + "-" + month + "-" + day;
    assert r[..4] == year;
    assert r[5..7] == month;
    assert r[8..] == day;
  }

  lemma RenderIsIso(year: string, month: nat, day: nat)
    requires |year| == 4 && AllDigits(year) && month < 100 && day < 100
    ensures IsoShape(Render(year, month, day))
  {
    IsoOfParts(year, Pad2(month), Pad2(day));
  }

  const MonthNames: seq<string> := [
    "january", "february", "march", "april", "may", "june",
    "july", "august", "september", "october", "november", "december"
  ]

  /** `\s+(\d{4})` at the head of `x`, the first white-space character already consumed: the
      year. */
  function SpacesThenYear(x: string): (r: Option<string>)
    ensures r.Some? ==> |r.value| == 4 && AllDigits(r.value)
    decreases |x|
  {
    if |x| > 0 && IsSpace(x[0]) then SpacesThenYear(x[1..])
    else if |x| >= 4 && AllDigits(x[..4]) then Some(x[..4])
    else None
  }

  /** `(\d{1,2}),?\s+(\d{4})` at the head of `t`: day and year. A day of two digits never has
      to give one back, since a digit can stand neither for the comma nor for white space. */
  function DayThenYear(t: string): (r: Option<(string, string)>)
    ensures r.Some? ==> 1 <= |r.value.0| <= 2 && AllDigits(r.value.0)
    ensures r.Some? ==> |r.value.1| == 4 && AllDigits(r.value.1)
  {
    var d := DigitRun2(t);
    var v := if d < |t| && t[d] == ',' then t[d + 1..] else t[d..];
    if d == 0 || v == [] || !IsSpace(v[0]) then None
    else
      match SpacesThenYear(v[1..])
      case Some(year) => Some((t[..d], year))
      case None => None
  }

  /** `\s*(\d{1,2}),?\s+(\d{4})` at the head of `t`. */
  function SpacesThenDay(t: string): (r: Option<(string, string)>)
    ensures r.Some? ==> 1 <= |r.value.0| <= 2 && AllDigits(r.value.0)
    ensures r.Some? ==> |r.value.1| == 4 && AllDigits(r.value.1)
    decreases |t|
  {
    if |t| > 0 && IsSpace(t[0]) then SpacesThenDay(t[1..]) else DayThenYear(t)
  }

  /** Day and year as captured by `\s+(\d{1,2}),?\s+(\d{4})` at the head of `s`. Each run of
      white space is taken whole, because what follows it can never be white space. */
  function MatchDayYear(s: string): (r: Option<(string, string)>)
    ensures r.Some? ==> 1 <= |r.value.0| <= 2 && AllDigits(r.value.0)
    ensures r.Some? ==> |r.value.1| == 4 && AllDigits(r.value.1)
    ensures r.Some? ==> s != [] && IsSpace(s[0])
  {
    if |s| > 0 && IsSpace(s[0]) then SpacesThenDay(s[1..]) else None
  }

  /** `s` begins with the lower-case `name` written in any mix of letter case. */
  predicate StartsWithIgnoringCase(s: string, name: string)
    decreases |name|
  {
    |name| <= |s| && (name == [] || (LowerChar(s[0]) == name[0] && StartsWithIgnoringCase(s[1..], name[1..])))
  }

  lemma {:induction false} StartsWithIgnoringCaseIffLower(s: string, name: string)
    ensures StartsWithIgnoringCase(s, name) <==> |name| <= |s| && Lower(s[..|name|]) == name
    decreases |name|
  {
    if name != [] && |name| <= |s| {
      StartsWithIgnoringCaseIffLower(s[1..], name[1..]);
      assert Lower(s[..|name|]) == [LowerChar(s[0])] + Lower(s[1..][..|name| - 1]);
      if Lower(s[..|name|]) == name {
        assert Lower(s[1..][..|name| - 1]) == name[1..];
      }
    }
  }

  /** The month `name` (in any mix of letter case) followed by a day and a year starts at `i`. */
  predicate MonthAt(s: string, name: string, i: int) {
    0 <= i <= |s| && StartsWithIgnoringCase(s[i..], name) && MatchDayYear(s[i + |name|..]).Some?
  }

  lemma NoMonthPastEnd(s: string, name: string, i: nat)
    requires i + |name| > |s|
    ensures forall k :: i <= k ==> !MonthAt(s, name, k)
  {
  }

  /** `re.search(name + r"\s+(\d{1,2}),?\s+(\d{4})", s, re.IGNORECASE)` from offset `i`: the
      leftmost position where the pattern matches. */
  function FirstMonthAt(s: string, name: string, i: nat): (r: Option<nat>)
    ensures r.Some? ==> i <= r.value && MonthAt(s, name, r.value)
    ensures r.Some? ==> forall k :: i <= k < r.value ==> !MonthAt(s, name, k)
    ensures r.None? ==> forall k :: i <= k ==> !MonthAt(s, name, k)
    decreases |s| - i
  {
    if i + |name| > |s| then
      NoMonthPastEnd(s, name, i);
      None
    else if MonthAt(s, name, i) then Some(i)
    else FirstMonthAt(s, name, i + 1)
  }

  /** The date read from the month named `MonthNames[m]` at its leftmost match. */
  function MonthDate(s: string, m: nat, i: nat): (r: string)
    requires m < 12 && MonthAt(s, MonthNames[m], i)
    ensures IsoShape(r)
    ensures var dy := MatchDayYear(s[i + |MonthNames[m]|..]).value;
      r == dy.1 + "-" + Pad2(m + 1) + "-" + ZeroPad(dy.0)
  {
    var dy := MatchDayYear(s[i + |MonthNames[m]|..]).value;
    TwoDigitValue(dy.0);
    PadOfValue(dy.0);
    RenderIsIso(dy.1, m + 1, DigitsValue(dy.0));
    Render(dy.1, m + 1, DigitsValue(dy.0))
  }

  /** Tries the months from `MonthNames[m]` on, in calendar order; the first month that occurs
      anywhere wins, wherever the others occur. */
  function ParseMonths(s: string, m: nat): (r: Option<string>)
    requires m <= 12
    ensures r.Some? ==> IsoShape(r.value)
    ensures r.None? <==> forall k :: m <= k < 12 ==> FirstMonthAt(s, MonthNames[k], 0).None?
    decreases 12 - m
  {
    if m == 12 then None
    else
      match FirstMonthAt(s, MonthNames[m], 0)
      case Some(i) => Some(MonthDate(s, m, i))
      case None => ParseMonths(s, m + 1)
  }

  /** `_manual_date_parse`: an ISO date as it is, else a leading month-first numeric date, else
      the first calendar month written out with a day and a year; anything else comes back
      unchanged. */
  function ManualDateParse(s: string): (r: string)
    ensures IsoMatch(s) ==> r == s
    ensures r == s || IsoShape(r)
  {
    if IsoMatch(s) then s
    else
      match MatchNumeric(s)
      case Some(p) => NumericDate(p)
      case None =>
        match ParseMonths(s, 0)
        case Some(d) => d
        case None => s
  }

  function NumericDate(p: DateParts): (r: string)
    requires 1 <= |p.month| <= 2 && AllDigits(p.month)
    requires 1 <= |p.day| <= 2 && AllDigits(p.day)
    requires |p.year| == 4 && AllDigits(p.year)
    ensures r == p.year + "-" + ZeroPad(p.month) + "-" + ZeroPad(p.day)
    ensures IsoShape(r)
  {
    PadOfValue(p.month);
    PadOfValue(p.day);
    IsoOfParts(p.year, ZeroPad(p.month), ZeroPad(p.day));
    Render(p.year, DigitsValue(p.month), DigitsValue(p.day))
  }

  /** Whether any pattern of the parser recognises `s`. */
  ghost predicate Recognised(s: string) {
    || IsoMatch(s)
    || MatchNumeric(s).Some?
    || exists k, i :: 0 <= k < 12 && MonthAt(s, MonthNames[k], i)
  }

  /** The parser leaves exactly the unrecognised texts and the ISO dates alone. */
  lemma {:induction false} UnchangedIffIsoOrUnrecognised(s: string)
    ensures ManualDateParse(s) == s <==> IsoMatch(s) || !Recognised(s)
  {
    if !IsoMatch(s) && MatchNumeric(s).None? {
      if exists k, i :: 0 <= k < 12 && MonthAt(s, MonthNames[k], i) {
        var k, i :| 0 <= k < 12 && MonthAt(s, MonthNames[k], i);
        assert FirstMonthAt(s, MonthNames[k], 0).Some?;
      }
    }
    if ManualDateParse(s) == s && !IsoMatch(s) {
      if MatchNumeric(s).Some? || ParseMonths(s, 0).Some? {
        assert false;
      }
      forall k, i | 0 <= k < 12
        ensures !MonthAt(s, MonthNames[k], i)
      {
        assert FirstMonthAt(s, MonthNames[k], 0).None?;
      }
    }
  }

  /** Whatever the parser returns, parsing it again changes nothing. */
  lemma ManualDateParseIdempotent(s: string)
    ensures ManualDateParse(ManualDateParse(s)) == ManualDateParse(s)
  {
  }

  /** A leading month-first date is zero-padded into year-month-day order. */
  lemma NumericDateRendered(s: string, p: DateParts)
    requires !IsoMatch(s) && NumericAt(s, p)
    ensures ManualDateParse(s) == p.year + "-" + ZeroPad(p.month) + "-" + ZeroPad(p.day)
  {
    MatchNumericIffNumericAt(s, p);
  }

  /** The earliest month in calendar order that occurs decides the date, at its leftmost match. */
  lemma {:induction false} EarliestMonthWins(s: string, m: nat, k: nat)
    requires m <= k < 12
    requires FirstMonthAt(s, MonthNames[k], 0).Some?
    requires forall j :: m <= j < k ==> FirstMonthAt(s, MonthNames[j], 0).None?
    ensures ParseMonths(s, m) == Some(MonthDate(s, k, FirstMonthAt(s, MonthNames[k], 0).value))
    decreases k - m
  {
    if m < k {
      assert FirstMonthAt(s, MonthNames[m], 0).None?;
      EarliestMonthWins(s, m + 1, k);
    }
  }

  /** Well-formed groups joined by separators fit the pattern, whatever text follows. */
  lemma NumericAtOfParts(p: DateParts, a: char, b: char, tail: string)
    requires 1 <= |p.month| <= 2 && AllDigits(p.month)
    requires 1 <= |p.day| <= 2 && AllDigits(p.day)
    requires |p.year| == 4 && AllDigits(p.year)
    requires IsDateSep(a) && IsDateSep(b)
    ensures NumericAt(p.month + [a] + p.day + [b] + p.year + tail, p)
  {
    var s := p.month + [a] + p.day + [b] + p.year + tail;
    var k := |p.month|;
    var j := k + 1 + |p.day|;
    assert s[..k] == p.month;
    assert s[k + 1..j] == p.day;
    assert s[j + 1..j + 5] == p.year;
  }

  /** Any text that starts with a month-first date reads as that date, whatever follows it. */
  lemma LeadingNumericDate(p: DateParts, a: char, b: char, tail: string)
    requires 1 <= |p.month| <= 2 && AllDigits(p.month)
    requires 1 <= |p.day| <= 2 && AllDigits(p.day)
    requires |p.year| == 4 && AllDigits(p.year)
    requires IsDateSep(a) && IsDateSep(b)
    ensures ManualDateParse(p.month + [a] + p.day + [b] + p.year + tail)
         == p.year + "-" + ZeroPad(p.month) + "-" + ZeroPad(p.day)
  {
    var s := p.month + [a] + p.day + [b] + p.year + tail;
    NumericAtOfParts(p, a, b, tail);
    assert !IsoMatch(s) by {
      assert s[|p.month|] == a;
      if |s| >= 10 {
        assert s[..4][|p.month|] == a;
      }
    }
    NumericDateRendered(s, p);
  }

  // ---------------------------------------------------------------- after the turn

  /** `ConversationState.from_dict(result.output.get("state", {}))`; a stored value that is not a
      dictionary makes `from_dict` raise, shown as `None`. */
  function CarriedState(output: map<string, Value>): (r: Option<State>)
    ensures "state" !in output ==> r == Some(Initial())
    ensures r.Some? ==> r.value.Valid()
  {
    var raw := if "state" in output then output["state"] else VMap(map[]);
    FromDictEmpty();
    if raw.VMap? then Some(FromDict(raw.fields)) else None
  }

  /** The state stored for the caller's next request: an authentication prompt makes the next
      turn expect credentials, and a bound patient clears the step whatever the first rule did. */
  function NextState(res: AgentResult): (r: Option<State>)
    ensures r.Some? <==> CarriedState(res.output).Some?
    ensures r.Some? ==> r.value.(step := CarriedState(res.output).value.step) == CarriedState(res.output).value
    ensures r.Some? && !r.value.Unauthenticated() ==> r.value.step == NoStep
    ensures r.Some? && r.value.Unauthenticated() && Truthy(Get(res.metadata, "auth_prompted")) ==>
      r.value.step == AwaitingAuth
    ensures r.Some? && r.value.Unauthenticated() && !Truthy(Get(res.metadata, "auth_prompted")) ==>
      r.value.step == CarriedState(res.output).value.step
  {
    match CarriedState(res.output)
    case None => None
    case Some(s) =>
      var prompted := if Truthy(Get(res.metadata, "auth_prompted")) then s.SetStep(AwaitingAuth) else s;
      Some(if prompted.Unauthenticated() then prompted else prompted.SetStep(NoStep))
  }

  /** A reply that serialises a well-formed state hands the next request that very state, up
      to the step the front end adjusts. */
  lemma NextStateIsReplyState(res: AgentResult, st: State)
    requires Get(res.output, "state") == StateValue(st) && st.Valid()
    ensures CarriedState(res.output) == Some(st)
    ensures NextState(res).Some?
    ensures NextState(res).value.(step := st.step) == st
  {
    FromDictToDict(st);
  }

  /** A reply whose serialised state is unauthenticated and waits for credentials exactly
      when the reply says it prompted for them reaches the next request unchanged. */
  lemma PromptStateCarried(res: AgentResult, st: State)
    requires Get(res.output, "state") == StateValue(st) && st.Valid() && st.Unauthenticated()
    requires Truthy(Get(res.metadata, "auth_prompted")) ==> st.step == AwaitingAuth
    ensures NextState(res) == Some(st)
  {
    NextStateIsReplyState(res, st);
    var r := NextState(res).value;
    assert r.step == st.step;
  }

  /** After a request for a missing credential the next request expects credentials: the
      state the dialogue left is carried over as it is, provided no patient was bound before. */
  lemma CredentialRequestsCarryState(s: State, name: string, dob: string, demoMode: bool, now: string)
    requires s.Valid() && s.Unauthenticated() && !Blank(name)
    ensures NextState(Auth.NameOnly(s, name, now).result) == Some(Auth.NameOnly(s, name, now).state)
    ensures NextState(Auth.DobOnly(s, dob, now).result) == Some(Auth.DobOnly(s, dob, now).state)
    ensures NextState(Auth.Neither(s, demoMode, now).result) == Some(Auth.Neither(s, demoMode, now).state)
  {
    var a := Auth.NameOnly(s, name, now);
    PromptStateCarried(a.result, a.state);
    var b := Auth.DobOnly(s, dob, now);
    PromptStateCarried(b.result, b.state);
    var c := Auth.Neither(s, demoMode, now);
    PromptStateCarried(c.result, c.state);
  }

  /** After the registration offer the next request expects the answer to the offer. */
  lemma OfferCarriesState(s: State, name: string, dob: string, now: string)
    requires s.Valid() && s.Unauthenticated() && !Blank(name)
    ensures NextState(Auth.OfferRegistration(s, name, dob, now).result)
         == Some(Auth.OfferRegistration(s, name, dob, now).state)
    ensures Auth.OfferRegistration(s, name, dob, now).state.step == RegOffered
  {
    var d := Auth.OfferRegistration(s, name, dob, now);
    PromptStateCarried(d.result, d.state);
  }

  // ---------------------------------------------------------------- speaking and hanging up

  const DidNotCatch := "I didn't catch that. Could you repeat?"

  /** `output.get("text") or output.get("answer") or <fallback>`: the first truthy one. */
  function SpokenText(output: map<string, Value>): (r: Value)
    ensures Truthy(r)
    ensures Truthy(Get(output, "text")) ==> r == output["text"]
    ensures !Truthy(Get(output, "text")) && Truthy(Get(output, "answer")) ==> r == output["answer"]
    ensures r == VStr(DidNotCatch) || r == Get(output, "text") || r == Get(output, "answer")
  {
    if Truthy(Get(output, "text")) then Get(output, "text")
    else if Truthy(Get(output, "answer")) then Get(output, "answer")
    else VStr(DidNotCatch)
  }

  /** The caller hears the reply's own text whenever it has any. */
  lemma ReplyTextIsSpoken(output: map<string, Value>)
    requires TextOf(output) != []
    ensures SpokenText(output) == VStr(TextOf(output))
  {
  }

  /** `"goodbye" in utterance.lower() or (status is FAILURE and not auth_prompted)`. */
  function ShouldEnd(utterance: string, res: AgentResult): (r: bool)
    ensures Contains(Lower(utterance), "goodbye") ==> r
    ensures res.IsSuccess() ==> (r <==> Contains(Lower(utterance), "goodbye"))
    ensures Truthy(Get(res.metadata, "auth_prompted")) ==> (r <==> Contains(Lower(utterance), "goodbye"))
  {
    Contains(Lower(utterance), "goodbye") || (res.IsFailure() && !Truthy(Get(res.metadata, "auth_prompted")))
  }

  /** A request for a missing credential keeps the call open unless the caller said goodbye. */
  lemma CredentialPromptsKeepCallOpen(s: State, name: string, dob: string, demoMode: bool, now: string,
                                      utterance: string)
    requires !Blank(name) && !Contains(Lower(utterance), "goodbye")
    ensures !ShouldEnd(utterance, Auth.NameOnly(s, name, now).result)
    ensures !ShouldEnd(utterance, Auth.DobOnly(s, dob, now).result)
    ensures !ShouldEnd(utterance, Auth.Neither(s, demoMode, now).result)
  {
  }

  /** The registration offer as such ends the call, whatever the caller said. */
  lemma RegistrationOfferHangsUp(s: State, name: string, dob: string, now: string, utterance: string)
    requires !Blank(name)
    ensures ShouldEnd(utterance, Auth.OfferRegistration(s, name, dob, now).result)
  {
  }

  /** So does an answer the registration flow refuses: a name, date of birth, phone number or
      e-mail it cannot use, or a record the records agent will not create. */
  lemma RefusedRegistrationAnswerHangsUp(reg: Registration.RegReply, world: World, now: string, utterance: string)
    requires !reg.ok
    ensures ShouldEnd(utterance, Dialogue.RegistrationReply(reg, world, now).result)
  {
    var res := Registration.ResultOf(reg, now);
    assert res.metadata.Keys == {"timestamp"};
    var r := Dialogue.RegistrationReply(reg, world, now);
    assert r.result.metadata.Keys == {"timestamp"};
  }

  /** Whether the state a reply carries is still inside the registration flow: the offer waits
      for its answer, or one of the flow's questions for a usable one. */
  predicate MidRegistration(res: AgentResult) {
    var st := CarriedState(res.output);
    st.Some? && st.value.step.IsRegistration()
  }

  /** The hang-up rule as evidently intended: a failure that leaves the caller inside the
      registration flow keeps the call open, as a request for credentials does. */
  function ShouldEndKeepingRegistration(utterance: string, res: AgentResult): (r: bool)
    ensures !MidRegistration(res) ==> (r <==> ShouldEnd(utterance, res))
    ensures MidRegistration(res) ==> (r <==> Contains(Lower(utterance), "goodbye"))
  {
    Contains(Lower(utterance), "goodbye")
    || (res.IsFailure() && !Truthy(Get(res.metadata, "auth_prompted")) && !MidRegistration(res))
  }

  /** Under the intended rule the registration offer keeps the call open unless the caller said
      goodbye. */
  lemma RegistrationOfferKeepsCallOpen(s: State, name: string, dob: string, now: string, utterance: string)
    requires s.Valid() && !Blank(name) && !Contains(Lower(utterance), "goodbye")
    ensures !ShouldEndKeepingRegistration(utterance, Auth.OfferRegistration(s, name, dob, now).result)
  {
    var d := Auth.OfferRegistration(s, name, dob, now);
    NextStateIsReplyState(d.result, d.state);
  }

  /** Under the intended rule an answer the flow refuses keeps the call open too: the caller is
      asked the same question again. */
  lemma RefusedRegistrationAnswerKeepsCallOpen(s: State, input: TurnInput, world: World, fuzzyDob: Option<string>,
                                               now: string, utterance: string)
    requires s.Valid() && !Contains(Lower(utterance), "goodbye")
    requires s.step.CollectingName? || s.step.CollectingDob? || s.step.CollectingPhone? || s.step.CollectingEmail?
    ensures var reg := Registration.Register(s, input, world.records, fuzzyDob);
      !reg.ok ==> !ShouldEndKeepingRegistration(utterance, Dialogue.RegistrationReply(reg, world, now).result)
  {
    var reg := Registration.Register(s, input, world.records, fuzzyDob);
    if !reg.ok {
      assert reg.state == s;
      var r := Dialogue.RegistrationReply(reg, world, now);
      NextStateIsReplyState(r.result, r.state);
    }
  }
}
