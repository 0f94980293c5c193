/** The lead form's checks against the relay's presence check. The form
    trims before testing for blanks and checks formats; the relay only asks
    that each required property be a non-empty string. So everything the form
    lets through passes the relay's check on the three fields the two share,
    while the relay accepts values the form refuses. */
module ValidationContrast {
  import opened JsValue
  import opened JsString
  import opened FormPatterns
  import opened LeadForm
  import opened EmailServer

  /** The relay's test of one required property holding `v`. */
  predicate ServerPresent(v: string) {
    Truthy(Some(v))
  }

  /** A form the client accepts has a non-empty name, e-mail and phone, so the
      relay's presence check on those three fields passes for the same values. */
  lemma ClientValidPassesServer(d: FormData)
    requires IsValid(d)
    ensures ServerPresent(d.name) && ServerPresent(d.email) && ServerPresent(d.phone)
  {
    IsValidIff(d);
    assert AllWhitespace("");
  }

  /** A name of spaces only is present for the relay but missing for the form. */
  lemma BlankNameSplitsTheChecks(d: FormData)
    requires d.name != "" && AllWhitespace(d.name)
    ensures ServerPresent(d.name)
    ensures Name in Validate(d) && Validate(d)[Name] == NameRequired
  {
    ValidateFollowsRules(d);
  }

  /** An address without an `@` is present for the relay but refused by the form. */
  lemma AddressWithoutAtSplitsTheChecks(d: FormData)
    requires d.email != "" && '@' !in d.email && !AllWhitespace(d.email)
    ensures ServerPresent(d.email)
    ensures Email in Validate(d) && Validate(d)[Email] == EmailInvalid
  {
    ValidateFollowsRules(d);
    EmailFormatIff(d.email);
  }

  /** A sample request: a blank name, an address without `@`, a phone
      number holding a `?`, and a service type. */
  const Sample := Body(Some(" "), Some("x"), Some("?"), Some("Audit"), None, None, None, None)

  /** The relay sends the sample on: it only tests presence. */
  lemma ServerSendsSample(env: Env, accepts: Oracle)
    ensures HasRequired(Sample)
    ensures HandleSendEmail(env, Some(Sample), accepts).status != 400
  {
  }

  /** The form refuses the same three values, each for its own reason. */
  lemma FormRefusesSample()
    ensures Validate(FormData(" ", "x", "?", "", "", "")) ==
      map[Name := NameRequired, Email := EmailInvalid, Phone := PhoneInvalid, Category := CategoryRequired]
  {
    var d := FormData(" ", "x", "?", "", "", "");
    ValidateFollowsRules(d);
    EmailFormatIff(d.email);
    PhoneFormatIff(d.phone);
    assert !IsPhoneChar('?');
    assert AllWhitespace(" ");
    assert !AllWhitespace("x") && !AllWhitespace("?");
    assert Validate(d).Keys == {Name, Email, Phone, Category};
  }
}
