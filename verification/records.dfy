/** The in-memory patient store of the records agent: lookup by id and by name plus date of
    birth, duplicate detection, sequential "P-" id generation and patient creation. Saving the
    list to disk is not modelled. */
module Records {
  import opened Wrappers
  import opened Text
  import opened Validation
  import BaseAgent

  datatype LabResult = LabResult(test: string, interpretation: Option<string>)

  /** A patient record. A missing name or date of birth is stored as the empty text, which every
      comparison below treats exactly as the source treats a missing value. Appointments,
      medications and visit notes are opaque entries here. */
  datatype Patient = Patient(
    id: string,
    name: string,
    dob: string,
    phone: string,
    email: string,
    appointments: seq<string>,
    medications: seq<string>,
    labResults: seq<LabResult>,
    visitNotes: seq<string>)

  const IdPrefix := "P-"
  const FirstIdBase: nat := 1000
  const DuplicateMessage := "Patient already exists"
  const NotFoundPrefix := "Patient not found: "

  // ---------------------------------------------------------------- normalisation

  lemma LowerCharKeepsSpace(c: char)
    ensures IsSpace(LowerChar(c)) <==> IsSpace(c)
  {
  }

  /** Lower-casing leaves no upper-case letter and keeps white space where it was. */
  lemma LowerShape(t: string)
    ensures forall i :: 0 <= i < |t| ==> (IsSpace(Lower(t)[i]) <==> IsSpace(t[i]))
    ensures forall i :: 0 <= i < |t| ==> !('A' <= Lower(t)[i] <= 'Z')
  {
    forall i | 0 <= i < |t|
      ensures IsSpace(Lower(t)[i]) <==> IsSpace(t[i])
    {
      LowerCharKeepsSpace(t[i]);
    }
  }

  /** `_normalize_name`: a name of only white space normalises to nothing; any other normalises
      to a text with no white space at either end and no upper-case letter. */
  function NormalizeName(name: string): (r: string)
    ensures |r| <= |name|
    ensures r == [] <==> Blank(name)
    ensures r != [] ==> !IsSpace(r[0]) && !IsSpace(r[|r| - 1])
    ensures forall i :: 0 <= i < |r| ==> !('A' <= r[i] <= 'Z')
  {
    StripEmptyIffBlank(name);
    LowerShape(Strip(name));
    Lower(Strip(name))
  }

  /** Normalising twice changes nothing more, and a trimmed name normalises like the raw one. */
  lemma NormalizeNameIdempotent(name: string)
    ensures NormalizeName(NormalizeName(name)) == NormalizeName(name)
    ensures NormalizeName(Strip(name)) == NormalizeName(name)
  {
    var t := Strip(name);
    StripIdempotent(name);
    if t != [] {
      var r := Lower(t);
      LowerCharKeepsSpace(t[0]);
      LowerCharKeepsSpace(t[|t| - 1]);
      StripUnchanged(r);
    }
    LowerIdempotent(t);
  }

  /** The calendar part of an ISO 8601 date or date-time: YYYY-MM-DD with a month 1-12 and a day
      1-31, alone or followed by a 'T' or ' ' time separator. */
  predicate IsoDateStart(v: string) {
    && |v| >= 10
    && AllDigits(v[0..4]) && v[4] == '-' && AllDigits(v[5..7]) && v[7] == '-' && AllDigits(v[8..10])
    && 1 <= DigitsValue(v[5..7]) <= 12 && 1 <= DigitsValue(v[8..10]) <= 31
    && (|v| == 10 || v[10] == 'T' || v[10] == ' ')
  }

  /** `_normalize_date`, with `datetime.fromisoformat` approximated by `IsoDateStart`: such a date
      or date-time becomes its date; empty stays empty; anything else is kept as written. */
  function NormalizeDate(value: string): (r: string)
    ensures value == [] <==> r == []
    ensures IsoDateStart(value) ==> r == value[..10]
    ensures !IsoDateStart(value) ==> r == value
  {
    if value == [] then []
    else if IsoDateStart(value) then value[..10]
    else value
  }

  lemma NormalizeDateIdempotent(value: string)
    ensures NormalizeDate(NormalizeDate(value)) == NormalizeDate(value)
  {
    if IsoDateStart(value) {
      var d := value[..10];
      assert d[0..4] == value[0..4] && d[5..7] == value[5..7] && d[8..10] == value[8..10];
      assert IsoDateStart(d);
    }
  }

  // ---------------------------------------------------------------- lookup

  /** Index of the first patient with the given id. */
  function IndexOfId(patients: seq<Patient>, id: string): (r: Option<nat>)
    ensures r.Some? ==> r.value < |patients| && patients[r.value].id == id
    ensures r.Some? ==> forall j :: 0 <= j < r.value ==> patients[j].id != id
    ensures r.None? <==> forall j :: 0 <= j < |patients| ==> patients[j].id != id
    decreases |patients|
  {
    if patients == [] then None
    else if patients[0].id == id then Some(0)
    else
      match IndexOfId(patients[1..], id)
      case None => None
      case Some(k) => Some(k + 1)
  }

  /** `get_patient_by_id`: the first patient with that id. */
  function FindById(patients: seq<Patient>, id: string): (r: Option<Patient>)
    ensures r.Some? ==> r.value in patients && r.value.id == id
    ensures r.None? <==> forall p :: p in patients ==> p.id != id
  {
    match IndexOfId(patients, id)
    case Some(k) => Some(patients[k])
    case None => None
  }

  /** `_require_patient`: like `FindById` but an unknown id is an error. */
  function RequirePatient(patients: seq<Patient>, id: string): (r: Result<Patient, string>)
    ensures r.Success? <==> FindById(patients, id).Some?
    ensures r.Success? ==> r.value == FindById(patients, id).value
    ensures r.Failure? ==> r.error == NotFoundPrefix + BaseAgent.ProtectPhi(id)
  {
    match FindById(patients, id)
    case Some(p) => Success(p)
    case None => Failure(NotFoundPrefix + BaseAgent.ProtectPhi(id))
  }

  /** `get_lab_results`. */
  function GetLabResults(patients: seq<Patient>, id: string): (r: Result<seq<LabResult>, string>)
    ensures r.Success? <==> FindById(patients, id).Some?
    ensures r.Success? ==> r.value == FindById(patients, id).value.labResults
  {
    var p :- RequirePatient(patients, id);
    Success(p.labResults)
  }

  /** What a record is compared on: normalised name and normalised date of birth. */
  function Key(name: string, dob: string): (string, string) {
    (NormalizeName(name), NormalizeDate(dob))
  }

  /** The record matches a name and date of birth after normalising both sides. */
  predicate Matches(p: Patient, name: string, dob: string) {
    Key(p.name, p.dob) == Key(name, dob)
  }

  function Keys(patients: seq<Patient>): (ks: seq<(string, string)>)
    ensures |ks| == |patients|
    ensures forall i :: 0 <= i < |patients| ==> ks[i] == Key(patients[i].name, patients[i].dob)
  {
    seq(|patients|, i requires 0 <= i < |patients| => Key(patients[i].name, patients[i].dob))
  }

  /** `get_patient_by_dob`: the first patient matching name and date of birth. */
  function FindByDob(patients: seq<Patient>, name: string, dob: string): (r: Option<Patient>)
    ensures r.Some? ==> exists i :: (0 <= i < |patients| && patients[i] == r.value
      && Matches(r.value, name, dob) && forall j :: 0 <= j < i ==> !Matches(patients[j], name, dob))
    ensures r.None? ==> forall i :: 0 <= i < |patients| ==> !Matches(patients[i], name, dob)
  {
    var ks := Keys(patients);
    match IndexOf(ks, Key(name, dob))
    case Some(k) =>
      assert forall j :: 0 <= j < k ==> ks[j] != Key(name, dob);
      Some(patients[k])
    case None =>
      assert forall j :: 0 <= j < |ks| ==> ks[j] != Key(name, dob);
      None
  }

  /** `check_duplicate`: some patient matches name and date of birth, which is exactly when the
      lookup `get_patient_by_dob` finds one. */
  predicate CheckDuplicate(patients: seq<Patient>, name: string, dob: string): (b: bool)
    ensures b <==> FindByDob(patients, name, dob).Some?
  {
    exists i :: 0 <= i < |patients| && Matches(patients[i], name, dob)
  }

  // ---------------------------------------------------------------- ids

  /** The text up to the first '-' (all of it when there is none). */
  function UntilDash(s: string): (r: string)
    ensures '-' !in r
    ensures '-' !in s ==> r == s
  {
    match IndexOf(s, '-')
    case Some(k) => s[..k]
    case None => s
  }

  /** The number in a "P-<n>" id, as `int(id.split("-")[1])`; None when that raises. The piece
      holds no '-', so it is never negative. */
  function IdSuffix(id: string): (r: Option<int>)
    ensures r.Some? ==> r.value >= 0
  {
    if StartsWith(id, IdPrefix) then
      var piece := UntilDash(id[2..]);
      assert Strip(piece) == [] || Strip(piece)[0] != '-' by {
        if Strip(piece) != [] {
          assert Strip(piece)[0] in piece;
        }
      }
      ParseInt(piece)
    else None
  }

  /** `int` ignores surrounding white space and digit-group underscores, so "P- 1_5" reads as 15. */
  lemma IdSuffixLenient()
    ensures IdSuffix("P- 1_5") == Some(15)
  {
    var id := "P- 1_5";
    assert StartsWith(id, IdPrefix);
    var piece := id[2..];
    assert piece == [' ', '1', '_', '5'];
    assert UntilDash(piece) == piece by {
      assert '-' !in piece;
    }
    StripSpaced();
    assert Unsigned(piece) == ['1', '_', '5'];
    assert DigitsOf(['1', '_', '5']) == ['1', '5'] by {
      assert DigitsOf(['5']) == ['5'];
      assert DigitsOf(['_', '5']) == ['5'];
    }
    assert DigitsValue(['1', '5']) == 15 by {
      assert ['1', '5'][..1] == ['1'];
    }
  }

  lemma StripSpaced()
    ensures Strip([' ', '1', '_', '5']) == ['1', '_', '5']
  {
    var s := [' ', '1', '_', '5'];
    assert TrimStart(s[1..]) == s[1..];
    assert TrimStart(s) == s[1..];
    assert TrimEnd(s[1..]) == s[1..];
  }

  /** The largest of `floor` and the numbers present in `ns`. */
  function MaxFrom(floor: nat, ns: seq<Option<int>>): (m: nat)
    ensures m >= floor
    ensures forall i :: 0 <= i < |ns| && ns[i].Some? ==> m >= ns[i].value
    ensures m == floor || exists i :: 0 <= i < |ns| && ns[i] == Some(m)
    decreases |ns|
  {
    if ns == [] then floor
    else
      var next: nat := if ns[0].Some? && ns[0].value > floor then ns[0].value else floor;
      var m := MaxFrom(next, ns[1..]);
      assert m == next || exists i :: 0 <= i < |ns| && ns[i] == Some(m) by {
        if m != next {
          var j :| 0 <= j < |ns[1..]| && ns[1..][j] == Some(m);
          assert ns[j + 1] == Some(m);
        }
      }
      m
  }

  /** The largest id number at or above `floor`. */
  function MaxSuffixFrom(floor: nat, patients: seq<Patient>): (m: nat)
    ensures m >= floor
    ensures forall i :: 0 <= i < |patients| && IdSuffix(patients[i].id).Some? ==> m >= IdSuffix(patients[i].id).value
    ensures m == floor || exists i :: 0 <= i < |patients| && IdSuffix(patients[i].id) == Some(m)
  {
    var ns := seq(|patients|, i requires 0 <= i < |patients| => IdSuffix(patients[i].id));
    assert forall i :: 0 <= i < |patients| ==> ns[i] == IdSuffix(patients[i].id);
    MaxFrom(floor, ns)
  }

  /** `_generate_patient_id`: one past the largest id number, and at least P-1001. */
  function GenerateId(patients: seq<Patient>): (id: string)
    ensures StartsWith(id, IdPrefix)
    ensures IdSuffix(id) == Some(MaxSuffixFrom(FirstIdBase, patients) + 1)
  {
    IdSuffixOfGenerated(MaxSuffixFrom(FirstIdBase, patients) + 1);
    "P-" + NatToString(MaxSuffixFrom(FirstIdBase, patients) + 1)
  }

  lemma IdSuffixOfGenerated(n: nat)
    ensures IdSuffix("P-" + NatToString(n)) == Some(n)
  {
    var id := "P-" + NatToString(n);
    assert id[..2] == IdPrefix;
    assert id[2..] == NatToString(n);
    assert '-' !in NatToString(n) by {
      assert AllDigits(NatToString(n));
    }
    ParseNatToString(n);
    ParseIntOfDigits(NatToString(n));
  }

  /** The generated id's number is one past the largest of 1000 and the existing id numbers: it
      exceeds each of them, and one less is 1000 or an existing number. */
  lemma GeneratedIdExceeds(patients: seq<Patient>)
    ensures IdSuffix(GenerateId(patients)).Some?
    ensures IdSuffix(GenerateId(patients)).value > FirstIdBase
    ensures forall i :: 0 <= i < |patients| && IdSuffix(patients[i].id).Some? ==>
      IdSuffix(GenerateId(patients)).value > IdSuffix(patients[i].id).value
    ensures var n := IdSuffix(GenerateId(patients)).value;
      n - 1 == FirstIdBase || exists i :: 0 <= i < |patients| && IdSuffix(patients[i].id) == Some(n - 1)
  {
  }

  /** No existing patient already has the generated id. */
  lemma GeneratedIdFresh(patients: seq<Patient>)
    ensures forall p :: p in patients ==> p.id != GenerateId(patients)
  {
    GeneratedIdExceeds(patients);
    forall p | p in patients ensures p.id != GenerateId(patients) {
      var i :| 0 <= i < |patients| && patients[i] == p;
    }
  }

  // ---------------------------------------------------------------- creation

  datatype Created = Created(patient: Patient, patients: seq<Patient>)

  /** `create_patient`: validates name, phone and e-mail in that order, refuses a duplicate
      name and date of birth, then appends a record with a fresh id. */
  function CreatePatient(patients: seq<Patient>, name: string, dob: string, phone: string, email: string)
    : (r: Result<Created, string>)
    ensures ValidateName(name).Invalid? ==> r == Failure(ValidateName(name).message)
    ensures ValidateName(name).Valid? && ValidatePhone(phone).Invalid? ==> r == Failure(ValidatePhone(phone).message)
    ensures ValidateName(name).Valid? && ValidatePhone(phone).Valid? && ValidateEmail(email).Invalid? ==>
      r == Failure(ValidateEmail(email).message)
    ensures ValidateName(name).Valid? && ValidatePhone(phone).Valid? && ValidateEmail(email).Valid? ==>
      (r.Failure? <==> CheckDuplicate(patients, name, dob))
    ensures (ValidateName(name).Valid? && ValidatePhone(phone).Valid? && ValidateEmail(email).Valid?
      && CheckDuplicate(patients, name, dob)) ==> r == Failure(DuplicateMessage)
    ensures r.Success? ==> r.value.patients == patients + [r.value.patient]
    ensures r.Success? ==> r.value.patient == Patient(GenerateId(patients), Strip(name), dob,
      ValidatePhone(phone).value, ValidateEmail(email).value, [], [], [], [])
  {
    match ValidateName(name)
    case Invalid(m) => Failure(m)
    case Valid(_) =>
      match ValidatePhone(phone)
      case Invalid(m) => Failure(m)
      case Valid(phoneNorm) =>
        match ValidateEmail(email)
        case Invalid(m) => Failure(m)
        case Valid(emailNorm) =>
          if CheckDuplicate(patients, name, dob) then Failure(DuplicateMessage)
          else
            var p := Patient(GenerateId(patients), Strip(name), dob, phoneNorm, emailNorm, [], [], [], []);
            Success(Created(p, patients + [p]))
  }

  /** Appending a record whose id is new makes it the answer to a lookup by that id. */
  lemma AppendedFindable(patients: seq<Patient>, p: Patient)
    requires forall q :: q in patients ==> q.id != p.id
    ensures FindById(patients + [p], p.id) == Some(p)
  {
    var all := patients + [p];
    assert all[|patients|] == p;
    assert forall j :: 0 <= j < |patients| ==> all[j] == patients[j] && patients[j] in patients;
  }

  /** A created patient gets an id no other patient has, and becomes findable by name and date of
      birth. */
  lemma CreatedPatientFindable(patients: seq<Patient>, name: string, dob: string, phone: string, email: string)
    requires CreatePatient(patients, name, dob, phone, email).Success?
    ensures var c := CreatePatient(patients, name, dob, phone, email).value;
      (forall p :: p in patients ==> p.id != c.patient.id)
      && CheckDuplicate(c.patients, name, dob)
      && FindById(c.patients, c.patient.id) == Some(c.patient)
  {
    var c := CreatePatient(patients, name, dob, phone, email).value;
    GeneratedIdFresh(patients);
    assert Matches(c.patient, name, dob) by {
      NormalizeNameIdempotent(name);
    }
    assert c.patients[|patients|] == c.patient;
    AppendedFindable(patients, c.patient);
  }

  /** Registering the same name and date of birth twice fails the second time. */
  lemma CreateTwiceFails(patients: seq<Patient>, name: string, dob: string, phone: string, email: string)
    requires CreatePatient(patients, name, dob, phone, email).Success?
    ensures CreatePatient(CreatePatient(patients, name, dob, phone, email).value.patients, name, dob, phone, email)
      == Failure(DuplicateMessage)
  {
    CreatedPatientFindable(patients, name, dob, phone, email);
  }
}
