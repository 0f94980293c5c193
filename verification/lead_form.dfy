/** The lead form's state logic: the six-field form record, the field-keyed
    error map produced by `validateForm`, the one-field update of
    `handleChange`, the submit gate and the value the form is reset to after
    a successful submission. Rendering and timers are not modelled. */
module LeadForm {
  import opened JsString
  import opened FormPatterns
  import opened JsValue

  /** The `name` attribute of each input of the form. */
  datatype Field = Name | Email | Phone | StoreLink | Category | Challenges

  /** `formData`: every input is controlled, so every value is a string. */
  datatype FormData = FormData(
    name: string,
    email: string,
    phone: string,
    storeLink: string,
    category: string,
    challenges: string)

  /** `errors`: messages keyed by field; an entry set to `""` shows nothing. */
  type Errors = map<Field, string>

  datatype FormState = FormState(data: FormData, errors: Errors)

  const NameRequired := "Name is required"
  const EmailRequired := "Email is required"
  const EmailInvalid := "Invalid email format"
  const PhoneRequired := "Phone number is required"
  const PhoneInvalid := "Invalid phone number"
  const CategoryRequired := "Please select a category"

  /** The options of the category select, after the empty placeholder. */
  const Categories: seq<string> := [
    "Electronics", "Fashion & Apparel", "Home & Kitchen", "Beauty & Personal Care",
    "Sports & Outdoors", "Toys & Games", "Books & Media", "Health & Wellness",
    "Automotive", "Other"]

  /** `formData[field]`. */
  function Get(d: FormData, f: Field): string {
    match f
    case Name => d.name
    case Email => d.email
    case Phone => d.phone
    case StoreLink => d.storeLink
    case Category => d.category
    case Challenges => d.challenges
  }

  /** `{ ...formData, [field]: value }`. */
  function Set(d: FormData, f: Field, v: string): (r: FormData)
    ensures Get(r, f) == v
    ensures forall g :: g != f ==> Get(r, g) == Get(d, g)
  {
    match f
    case Name => d.(name := v)
    case Email => d.(email := v)
    case Phone => d.(phone := v)
    case StoreLink => d.(storeLink := v)
    case Category => d.(category := v)
    case Challenges => d.(challenges := v)
  }

  /** The rule each field is checked against on its own, as a reference for
      `Validate`: the message a value earns, if any. The format rules are the
      regular expressions themselves, applied to the untrimmed value. */
  ghost function FieldRule(f: Field, v: string): Option<string> {
    match f
    case Name => if AllWhitespace(v) then Some(NameRequired) else None
    case Email =>
      if AllWhitespace(v) then Some(EmailRequired)
      else if !EmailPatternMatches(v) then Some(EmailInvalid)
      else None
    case Phone =>
      if AllWhitespace(v) then Some(PhoneRequired)
      else if !PhonePatternMatches(v) then Some(PhoneInvalid)
      else None
    case Category => if v == "" then Some(CategoryRequired) else None
    case StoreLink => None
    case Challenges => None
  }

  /** `validateForm`'s error map, built check by check as the source does:
      every check runs, and each adds at most the entry for its own field. */
  function Validate(d: FormData): (e: Errors)
    ensures e.Keys <= {Name, Email, Phone, Category}
  {
    var e0: Errors := map[];
    var e1 := if Trim(d.name) == "" then e0[Name := NameRequired] else e0;
    var e2 :=
      if Trim(d.email) == "" then e1[Email := EmailRequired]
      else if !IsEmailFormat(d.email) then e1[Email := EmailInvalid]
      else e1;
    var e3 :=
      if Trim(d.phone) == "" then e2[Phone := PhoneRequired]
      else if !IsPhoneFormat(d.phone) then e2[Phone := PhoneInvalid]
      else e2;
    var e4 := if d.category == "" then e3[Category := CategoryRequired] else e3;
    e4
  }

  /** `Validate` reports, for every field, exactly the message its rule gives. */
  lemma ValidateFollowsRules(d: FormData)
    ensures forall f :: f in Validate(d) <==> FieldRule(f, Get(d, f)).Some?
    ensures forall f | f in Validate(d) :: Validate(d)[f] == FieldRule(f, Get(d, f)).value
  {
    TrimEmptyIff(d.name);
    TrimEmptyIff(d.email);
    TrimEmptyIff(d.phone);
    EmailFormatIff(d.email);
    PhoneFormatIff(d.phone);
    var e := Validate(d);
    forall f ensures (f in e <==> FieldRule(f, Get(d, f)).Some?) && (f in e ==> e[f] == FieldRule(f, Get(d, f)).value) {
      match f
      case Name =>
      case Email =>
      case Phone =>
      case StoreLink =>
      case Category =>
      case Challenges =>
    }
  }

  /** `validateForm()`'s return value: no error was recorded. */
  predicate IsValid(d: FormData) {
    |Validate(d)| == 0
  }

  /** Every field meets its rule: spelled out field by field. */
  ghost predicate AllRulesMet(d: FormData) {
    && !AllWhitespace(d.name)
    && !AllWhitespace(d.email) && EmailPatternMatches(d.email)
    && !AllWhitespace(d.phone) && PhonePatternMatches(d.phone)
    && d.category != ""
  }

  lemma AllRulesMetIff(d: FormData)
    ensures AllRulesMet(d) <==> forall f :: FieldRule(f, Get(d, f)).None?
  {
    if AllRulesMet(d) {
      forall f ensures FieldRule(f, Get(d, f)).None? {
        match f
        case Name =>
        case Email =>
        case Phone =>
        case StoreLink =>
        case Category =>
        case Challenges =>
      }
    } else {
      assert !(
        && FieldRule(Name, Get(d, Name)).None? && FieldRule(Email, Get(d, Email)).None?
        && FieldRule(Phone, Get(d, Phone)).None? && FieldRule(Category, Get(d, Category)).None?);
    }
  }

  /** The form is valid exactly when every field meets its rule. */
  lemma IsValidIff(d: FormData)
    ensures IsValid(d) <==> AllRulesMet(d)
  {
    ValidateFollowsRules(d);
    AllRulesMetIff(d);
    var e := Validate(d);
    if |e| != 0 {
      var f :| f in e;
      assert FieldRule(f, Get(d, f)).Some?;
    } else {
      assert forall f :: f !in e;
    }
  }

  /** Each field's entry depends on that field's value alone: a change to
      one field never adds, removes or alters another field's error. */
  lemma ValidateIsFieldwise(d: FormData, f: Field, v: string)
    ensures forall g :: g != f ==> (g in Validate(Set(d, f, v)) <==> g in Validate(d))
    ensures forall g | g != f && g in Validate(d) :: Validate(Set(d, f, v))[g] == Validate(d)[g]
  {
    ValidateFollowsRules(d);
    ValidateFollowsRules(Set(d, f, v));
  }

  /** `storeLink` and `challenges` can never carry an error. */
  lemma OptionalFieldsNeverFail(d: FormData)
    ensures StoreLink !in Validate(d) && Challenges !in Validate(d)
  {
  }

  /** The format check sees the untrimmed value: surrounding whitespace makes
      an otherwise non-blank address invalid rather than missing. */
  lemma EmailPaddingIsInvalid(d: FormData)
    requires |d.email| > 0 && (IsWhitespace(d.email[0]) || IsWhitespace(d.email[|d.email| - 1]))
    requires !AllWhitespace(d.email)
    ensures Email in Validate(d) && Validate(d)[Email] == EmailInvalid
  {
    ValidateFollowsRules(d);
    EmailFormatIff(d.email);
    assert !NoWhitespace(d.email);
  }

  /** `handleChange`: set the edited field; if that field shows an error,
      blank its message. */
  function HandleChange(s: FormState, f: Field, v: string): (r: FormState)
    ensures Get(r.data, f) == v
    ensures forall g :: g != f ==> Get(r.data, g) == Get(s.data, g)
    ensures r.errors.Keys == s.errors.Keys
    ensures f in s.errors ==> r.errors[f] == ""
    ensures forall g | g in s.errors && g != f :: r.errors[g] == s.errors[g]
  {
    var data := Set(s.data, f, v);
    var errors := if f in s.errors && s.errors[f] != "" then s.errors[f := ""] else s.errors;
    FormState(data, errors)
  }

  /** Editing the same field twice keeps only the last value. */
  lemma HandleChangeOverwrites(s: FormState, f: Field, v: string, w: string)
    ensures HandleChange(HandleChange(s, f, v), f, w) == HandleChange(s, f, w)
  {
    var a := HandleChange(HandleChange(s, f, v), f, w);
    var b := HandleChange(s, f, w);
    FormDataExt(a.data, b.data);
  }

  /** Edits to two different fields commute. */
  lemma HandleChangeCommutes(s: FormState, f: Field, v: string, g: Field, w: string)
    requires f != g
    ensures HandleChange(HandleChange(s, f, v), g, w) == HandleChange(HandleChange(s, g, w), f, v)
  {
    var a := HandleChange(HandleChange(s, f, v), g, w);
    var b := HandleChange(HandleChange(s, g, w), f, v);
    FormDataExt(a.data, b.data);
  }

  /** Two form records that agree on every field are equal. */
  lemma FormDataExt(a: FormData, b: FormData)
    requires forall f :: Get(a, f) == Get(b, f)
    ensures a == b
  {
    assert Get(a, Name) == Get(b, Name) && Get(a, Email) == Get(b, Email);
    assert Get(a, Phone) == Get(b, Phone) && Get(a, StoreLink) == Get(b, StoreLink);
    assert Get(a, Category) == Get(b, Category) && Get(a, Challenges) == Get(b, Challenges);
  }

  /** `handleSubmit`'s gate: the errors are replaced by the fresh validation
      result and submission proceeds only when it is empty. */
  function Submit(s: FormState): (r: (FormState, bool))
    ensures r.0.data == s.data
    ensures r.0.errors == Validate(s.data)
    ensures r.1 <==> AllRulesMet(s.data)
  {
    var e := Validate(s.data);
    IsValidIff(s.data);
    (FormState(s.data, e), IsValid(s.data))
  }

  /** The value the form is reset to after a successful submission. */
  const EmptyForm := FormData("", "", "", "", "", "")

  /** The reset after success: every field empty, errors left as they are. */
  function ResetAfterSuccess(s: FormState): (r: FormState)
    ensures forall f :: Get(r.data, f) == ""
    ensures r.errors == s.errors
  {
    s.(data := EmptyForm)
  }

  /** Submitting the reset form reports exactly the four required fields. */
  lemma EmptyFormErrors()
    ensures Validate(EmptyForm) == map[
      Name := NameRequired, Email := EmailRequired,
      Phone := PhoneRequired, Category := CategoryRequired]
  {
    var e := Validate(EmptyForm);
    assert AllWhitespace("");
    assert e.Keys == {Name, Email, Phone, Category};
  }

  /** Every listed category satisfies the category rule; the placeholder does not. */
  lemma CategoryChoices(d: FormData)
    ensures d.category in Categories ==> Category !in Validate(d)
    ensures d.category == "" ==> Validate(d)[Category] == CategoryRequired
  {
  }
}
