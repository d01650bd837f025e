/**
 * The request form (components/CertificateForm.tsx): the certificate checkbox
 * toggle, the submit checks (required fields, the email pattern, the visa
 * country) with the payload they let through, and the prefill from a
 * remembered requester profile.
 */
module CertificateForm {
  import opened Types
  import opened Seqs
  import opened Strings

  // ---------------------------------------------------------------------------
  // The checkbox toggle

  /** `handleCheckboxChange`: a selected tag is removed, any other is appended. */
  function Toggle(types: seq<CertType>, t: CertType): seq<CertType> {
    if t in types then Filter(x => x != t, types) else types + [t]
  }

  /** Toggling an unselected tag appends it at the end; toggling a selected one removes
      every copy of it, keeps every other tag and keeps their order. */
  lemma ToggleSpec(types: seq<CertType>, t: CertType)
    ensures t !in types ==> Toggle(types, t) == types + [t]
    ensures t in types ==> t !in Toggle(types, t) && IsSubsequence(Toggle(types, t), types)
    ensures forall x :: x != t ==> (x in Toggle(types, t) <==> x in types)
  {
    if t in types {
      FilterIsSubsequence(x => x != t, types);
    }
  }

  /** The toggle never introduces a duplicate. */
  lemma ToggleNoDup(types: seq<CertType>, t: CertType)
    requires NoDup(types)
    ensures NoDup(Toggle(types, t))
  {
    if t in types {
      FilterNoDup(x => x != t, types);
    }
  }

  /** Toggling an unselected tag twice restores the list. */
  lemma ToggleTwiceAbsent(types: seq<CertType>, t: CertType)
    requires t !in types
    ensures Toggle(Toggle(types, t), t) == types
  {
    FilterConcat(x => x != t, types, [t]);
    FilterAll(x => x != t, types);
  }

  /** Toggling a selected tag twice keeps the same tags, the toggled one moved to the end. */
  lemma ToggleTwicePresent(types: seq<CertType>, t: CertType)
    requires t in types
    ensures Toggle(Toggle(types, t), t) == Filter(x => x != t, types) + [t]
    ensures forall x :: x in Toggle(Toggle(types, t), t) <==> x in types
  {
  }

  // ---------------------------------------------------------------------------
  // The email pattern ^[^\s@]+@[^\s@]+\.[^\s@]+$

  /** A character the class `[^\s@]` accepts. */
  predicate WordChar(c: char) {
    !IsSpace(c) && c != '@'
  }

  /** A match of `[^\s@]+`. */
  predicate Word(s: string) {
    s != [] && forall k :: 0 <= k < |s| ==> WordChar(s[k])
  }

  /** The whole email is a word, an `@` at `i`, a word, a `.` at `j`, and a word. */
  predicate EmailSplitAt(e: string, i: int, j: int) {
    0 < i && i + 1 < j < |e| - 1 && e[i] == '@' && e[j] == '.'
    && Word(e[..i]) && Word(e[i + 1..j]) && Word(e[j + 1..])
  }

  /** `emailRegex.test(email)`. */
  predicate EmailMatches(e: string) {
    exists i, j :: 0 < i < |e| && 0 < j < |e| && EmailSplitAt(e, i, j)
  }

  /** `e[i]` is the only `@` of `e`. */
  predicate OnlyAt(e: string, i: int) {
    0 <= i < |e| && e[i] == '@' && forall k :: 0 <= k < |e| && k != i ==> e[k] != '@'
  }

  /** The only `@` is at `i`, not first, and a `.` follows that is neither right after the
      `@` nor the last character. */
  predicate AtThenDot(e: string, i: int) {
    0 < i < |e| && OnlyAt(e, i) && exists j :: i + 1 < j < |e| - 1 && e[j] == '.'
  }

  /** The pattern in plain terms: no white space, exactly one `@`, not the first character,
      and after it a `.` that is neither right after the `@` nor the last character. */
  lemma EmailMatchesIff(e: string)
    ensures EmailMatches(e) <==> NoSpace(e) && exists i :: AtThenDot(e, i)
  {
    if EmailMatches(e) {
      var i, j :| 0 < i < |e| && 0 < j < |e| && EmailSplitAt(e, i, j);
      forall k | 0 <= k < |e|
        ensures !IsSpace(e[k]) && (k != i ==> e[k] != '@')
      {
        if k < i {
          assert e[k] == e[..i][k];
        } else if i < k < j {
          assert e[k] == e[i + 1..j][k - i - 1];
        } else if j < k {
          assert e[k] == e[j + 1..][k - j - 1];
        }
      }
      assert AtThenDot(e, i);
    }
    if NoSpace(e) && exists i :: AtThenDot(e, i) {
      var i :| AtThenDot(e, i);
      var j :| i + 1 < j < |e| - 1 && e[j] == '.';
      assert Word(e[..i]);
      assert Word(e[i + 1..j]);
      assert Word(e[j + 1..]);
      assert EmailSplitAt(e, i, j);
    }
  }

  /** "a@b.c" passes. */
  lemma EmailExampleShort(e: string)
    requires e == "a@b.c"
    ensures EmailMatches(e)
  {
    assert e[..1] == "a" && e[2..3] == "b" && e[4..] == "c";
    assert EmailSplitAt(e, 1, 3);
  }

  /** "a@b" fails: there is no room for a dot after the `@`. */
  lemma EmailExampleNoDot(e: string)
    requires e == "a@b"
    ensures !EmailMatches(e)
  {
  }

  /** "a@@b.c" fails: the second `@` falls inside a word. */
  lemma EmailExampleDoubleAt(e: string)
    requires e == "a@@b.c"
    ensures !EmailMatches(e)
  {
    forall i, j | 0 < i < |e| && 0 < j < |e|
      ensures !EmailSplitAt(e, i, j)
    {
      if i == 1 && j > 2 {
        assert e[i + 1..j][0] == '@';
      } else if i > 1 {
        assert e[..i][1] == '@';
      }
    }
  }

  // ---------------------------------------------------------------------------
  // Submission

  /** The form's state. */
  datatype FormFields = FormFields(
    fullName: string,
    email: string,
    selectedTypes: seq<CertType>,
    submissionSign: string,
    internalPhone: string,
    mobilePhone: string,
    targetCountry: string)

  /** What is handed to `onSubmit`: a request without id, status or submission date. */
  datatype Payload = Payload(
    fullName: string,
    email: string,
    selectedTypes: seq<CertType>,
    submissionSign: string,
    internalPhone: string,
    mobilePhone: string,
    targetCountry: Option<string>)

  /** The three alerts, in the order they are checked. */
  datatype FormError = MissingRequired | BadEmail | MissingCountry

  datatype Result<T, E> = Ok(value: T) | Err(error: E)

  predicate RequiredPresent(f: FormFields) {
    f.fullName != "" && f.selectedTypes != [] && f.submissionSign != "" && f.email != ""
  }

  predicate VisaSelected(f: FormFields) {
    VisaType in f.selectedTypes
  }

  /** `handleSubmit`'s checks, and the payload when they pass. */
  function Validate(f: FormFields): Result<Payload, FormError> {
    if !RequiredPresent(f) then Err(MissingRequired)
    else if !EmailMatches(f.email) then Err(BadEmail)
    else if VisaSelected(f) && Trim(f.targetCountry) == "" then Err(MissingCountry)
    else Ok(Payload(f.fullName, f.email, f.selectedTypes, f.submissionSign, f.internalPhone,
                    f.mobilePhone, if VisaSelected(f) then Some(f.targetCountry) else None))
  }

  /** Each alert fires exactly when its check is the first to fail; a form passing all three
      is sent with its fields as they are, at least one tag, and a country, untrimmed,
      exactly when the visa tag is selected. */
  lemma ValidateSpec(f: FormFields)
    ensures Validate(f) == Err(MissingRequired) <==>
              f.fullName == "" || f.selectedTypes == [] || f.submissionSign == "" || f.email == ""
    ensures Validate(f) == Err(BadEmail) <==> RequiredPresent(f) && !EmailMatches(f.email)
    ensures Validate(f) == Err(MissingCountry) <==>
              RequiredPresent(f) && EmailMatches(f.email) && VisaType in f.selectedTypes
              && forall i :: 0 <= i < |f.targetCountry| ==> IsSpace(f.targetCountry[i])
    ensures Validate(f).Ok? <==>
              RequiredPresent(f) && EmailMatches(f.email)
              && (VisaType in f.selectedTypes ==> Trim(f.targetCountry) != "")
    ensures Validate(f).Ok? ==>
              var p := Validate(f).value;
              && p.fullName == f.fullName && p.email == f.email
              && p.selectedTypes == f.selectedTypes && |p.selectedTypes| > 0
              && p.submissionSign == f.submissionSign
              && p.internalPhone == f.internalPhone && p.mobilePhone == f.mobilePhone
              && (p.targetCountry.Some? <==> VisaType in f.selectedTypes)
              && (p.targetCountry.Some? ==> p.targetCountry.value == f.targetCountry)
  {
    TrimEmptyIff(f.targetCountry);
  }

  /** A submitted email has no white space and exactly one `@`. */
  lemma SubmittedEmailShape(f: FormFields)
    requires Validate(f).Ok?
    ensures NoSpace(Validate(f).value.email)
    ensures exists i :: AtThenDot(f.email, i)
  {
    EmailMatchesIff(f.email);
  }

  // ---------------------------------------------------------------------------
  // Prefill

  const EmptyFields: FormFields := FormFields("", "", [], "", "", "", "")

  function OrElse(current: string, fallback: string): string {
    if current == "" then fallback else current
  }

  /** The profile effect: each identity field is written from the profile only while it
      is empty; the signature defaults to the profile's name. */
  function Prefill(f: FormFields, p: UserProfile): FormFields {
    f.(fullName := OrElse(f.fullName, p.fullName),
       email := OrElse(f.email, p.email),
       internalPhone := OrElse(f.internalPhone, p.internalPhone),
       mobilePhone := OrElse(f.mobilePhone, p.mobilePhone),
       submissionSign := OrElse(f.submissionSign, p.fullName))
  }

  /** The form's first state: `profile?.x || ''` for each identity field. */
  function InitialFields(profile: Option<UserProfile>): FormFields {
    match profile
    case None => EmptyFields
    case Some(p) => FormFields(p.fullName, p.email, [], p.fullName, p.internalPhone, p.mobilePhone, "")
  }

  /** Prefill keeps every field that is already filled in, fills each empty identity field
      from the profile, leaves the tags and the country alone, and a second prefill from the
      same profile changes nothing. */
  lemma PrefillSpec(f: FormFields, p: UserProfile)
    ensures f.fullName != "" ==> Prefill(f, p).fullName == f.fullName
    ensures f.fullName == "" ==> Prefill(f, p).fullName == p.fullName
    ensures f.email != "" ==> Prefill(f, p).email == f.email
    ensures f.email == "" ==> Prefill(f, p).email == p.email
    ensures f.internalPhone != "" ==> Prefill(f, p).internalPhone == f.internalPhone
    ensures f.internalPhone == "" ==> Prefill(f, p).internalPhone == p.internalPhone
    ensures f.mobilePhone != "" ==> Prefill(f, p).mobilePhone == f.mobilePhone
    ensures f.mobilePhone == "" ==> Prefill(f, p).mobilePhone == p.mobilePhone
    ensures f.submissionSign != "" ==> Prefill(f, p).submissionSign == f.submissionSign
    ensures f.submissionSign == "" ==> Prefill(f, p).submissionSign == p.fullName
    ensures Prefill(f, p).selectedTypes == f.selectedTypes
    ensures Prefill(f, p).targetCountry == f.targetCountry
    ensures Prefill(Prefill(f, p), p) == Prefill(f, p)
  {
  }

  /** The first state with a profile is what prefilling an empty form gives. */
  lemma InitialIsPrefilled(p: UserProfile)
    ensures InitialFields(Some(p)) == Prefill(EmptyFields, p)
    ensures InitialFields(None) == EmptyFields
  {
  }

  /** The editable text inputs. */
  datatype TextField = FullName | Email | SubmissionSign | InternalPhone | MobilePhone | TargetCountry

  // ---------------------------------------------------------------------------
  // The component's state

  class Form {
    var fullName: string
    var email: string
    var selectedTypes: seq<CertType>
    var submissionSign: string
    var internalPhone: string
    var mobilePhone: string
    var targetCountry: string

    function Fields(): FormFields
      reads this
    {
      FormFields(fullName, email, selectedTypes, submissionSign, internalPhone, mobilePhone, targetCountry)
    }

    constructor(profile: Option<UserProfile>)
      ensures Fields() == InitialFields(profile)
    {
      fullName := if profile.Some? then profile.value.fullName else "";
      email := if profile.Some? then profile.value.email else "";
      selectedTypes := [];
      submissionSign := if profile.Some? then profile.value.fullName else "";
      internalPhone := if profile.Some? then profile.value.internalPhone else "";
      mobilePhone := if profile.Some? then profile.value.mobilePhone else "";
      targetCountry := "";
    }

    /** The effect run when the profile changes. */
    method ApplyProfile(profile: Option<UserProfile>)
      modifies this
      ensures profile.Some? ==> Fields() == Prefill(old(Fields()), profile.value)
      ensures profile.None? ==> Fields() == old(Fields())
    {
      if profile.Some? {
        var p := profile.value;
        if fullName == "" { fullName := p.fullName; }
        if email == "" { email := p.email; }
        if internalPhone == "" { internalPhone := p.internalPhone; }
        if mobilePhone == "" { mobilePhone := p.mobilePhone; }
        if submissionSign == "" { submissionSign := p.fullName; }
      }
    }

    /** Typing into one input. */
    method SetText(field: TextField, value: string)
      modifies this
      ensures Fields() == match field
        case FullName => old(Fields()).(fullName := value)
        case Email => old(Fields()).(email := value)
        case SubmissionSign => old(Fields()).(submissionSign := value)
        case InternalPhone => old(Fields()).(internalPhone := value)
        case MobilePhone => old(Fields()).(mobilePhone := value)
        case TargetCountry => old(Fields()).(targetCountry := value)
    {
      match field
      case FullName => fullName := value;
      case Email => email := value;
      case SubmissionSign => submissionSign := value;
      case InternalPhone => internalPhone := value;
      case MobilePhone => mobilePhone := value;
      case TargetCountry => targetCountry := value;
    }

    /** Clicking a certificate card. */
    method ToggleType(t: CertType)
      modifies this
      ensures Fields() == old(Fields()).(selectedTypes := Toggle(old(selectedTypes), t))
    {
      if t in selectedTypes {
        selectedTypes := Filter(x => x != t, selectedTypes);
      } else {
        selectedTypes := selectedTypes + [t];
      }
    }

    /** `handleSubmit`: an alert and nothing changed, or the payload handed on and only the
        tags and the country cleared. */
    method Submit() returns (r: Result<Payload, FormError>)
      modifies this
      ensures r == Validate(old(Fields()))
      ensures r.Ok? ==> Fields() == old(Fields()).(selectedTypes := [], targetCountry := "")
      ensures r.Err? ==> Fields() == old(Fields())
    {
      if fullName == "" || |selectedTypes| == 0 || submissionSign == "" || email == "" {
        return Err(MissingRequired);
      }
      if !EmailMatches(email) {
        return Err(BadEmail);
      }
      var isVisaSelected := VisaType in selectedTypes;
      if isVisaSelected && Trim(targetCountry) == "" {
        return Err(MissingCountry);
      }
      r := Ok(Payload(fullName, email, selectedTypes, submissionSign, internalPhone, mobilePhone,
                      if isVisaSelected then Some(targetCountry) else None));
      selectedTypes := [];
      targetCountry := "";
    }
  }
}
