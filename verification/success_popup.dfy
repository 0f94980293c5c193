/** The confirmation shown after a booking: the visitor's first name, or
    "there" when none can be taken from the submission, and one sentence that
    names the service and the platform only when they were given. The dialog's
    animation, Escape-key handling and open state are not modelled. The popup
    is modelled as a component on its own: the lead form's `onSuccess()`
    passes no details, so its one caller never opens it. */
module SuccessPopup {
  import opened JsValue
  import opened JsString

  /** The properties of the submitted booking the popup reads. */
  datatype Submission = Submission(name: Option<string>, serviceType: Option<string>, platform: Option<string>)

  const Anonymous := "there"
  const Closing := ". Our team will connect with you within 24 hours."

  /** `s.split(' ')[0]`: the text before the first space. */
  function FirstWord(s: string): string {
    Split(s, ' ')[0]
  }

  /** The first word is the longest prefix without a space: it is a prefix
      of `s`, holds no space, and is followed by a space or by nothing. */
  lemma FirstWordSpec(s: string)
    ensures var w := FirstWord(s);
      && |w| <= |s| && w == s[..|w|] && ' ' !in w
      && (|w| == |s| || s[|w|] == ' ')
  {
    if ' ' in s {
      var i := IndexOf(s, ' ');
      SplitUnfold(s, ' ');
      assert FirstWord(s) == s[..i];
      assert ' ' !in s[..i] by {
        forall k | 0 <= k < i ensures s[..i][k] != ' ' { assert s[..i][k] == s[k]; }
      }
    }
  }

  /** `submission?.name?.split(' ')[0] || 'there'`. */
  function FirstName(sub: Option<Submission>): string {
    if sub.Some? && sub.value.name.Some? then Or(Some(FirstWord(sub.value.name.value)), Anonymous)
    else Anonymous
  }

  /** The greeting uses the first word of the name when there is one and
      "there" otherwise: never an empty name, never one with a space in it. */
  lemma FirstNameSpec(sub: Option<Submission>)
    ensures FirstName(sub) != "" && ' ' !in FirstName(sub)
    ensures FirstName(sub) == Anonymous <==>
      sub.None? || sub.value.name.None? || sub.value.name.value == ""
      || sub.value.name.value[0] == ' ' || FirstWord(sub.value.name.value) == Anonymous
    ensures FirstName(sub) != Anonymous ==>
      var n := sub.value.name.value; var w := FirstName(sub);
      |w| <= |n| && n[..|w|] == w && (|w| == |n| || n[|w|] == ' ')
  {
    if sub.Some? && sub.value.name.Some? {
      var n := sub.value.name.value;
      FirstWordSpec(n);
      if n != "" && n[0] == ' ' {
        assert FirstWord(n) == "";
      }
      if n != "" && n[0] != ' ' {
        assert FirstWord(n) != "";
      }
    }
  }

  /** ` for <service>` when a service is given, nothing otherwise. */
  function ServiceClause(sub: Option<Submission>): string {
    if sub.Some? && Truthy(sub.value.serviceType) then " for " + sub.value.serviceType.value else ""
  }

  /** ` on <platform>` when a platform is given, nothing otherwise. */
  function PlatformClause(sub: Option<Submission>): string {
    if sub.Some? && Truthy(sub.value.platform) then " on " + sub.value.platform.value else ""
  }

  /** The opening of the sentence, up to the word "booking". */
  function Opening(first: string): string {
    "Thanks " + first + "! We've received your booking"
  }

  /** What follows "booking": the service clause, then the platform clause. */
  function Middle(sub: Option<Submission>): string {
    ServiceClause(sub) + PlatformClause(sub)
  }

  /** The popup's sentence; the line breaks between the JSX expressions
      vanish, so the clauses follow "booking" directly. */
  function Confirmation(sub: Option<Submission>): string {
    Opening(FirstName(sub)) + Middle(sub) + Closing
  }

  /** The sentence always opens with the greeting and closes with the promise
      to call back, and what lies between is the clause part alone. */
  lemma ConfirmationFrame(sub: Option<Submission>)
    ensures var c := Confirmation(sub); var o := Opening(FirstName(sub));
      && |o| + |Closing| <= |c|
      && c[..|o|] == o && c[|c| - |Closing|..] == Closing
      && c[|o|..|c| - |Closing|] == Middle(sub)
  {
    ThreeParts(Opening(FirstName(sub)), Middle(sub), Closing);
  }

  /** The parts of a three-part concatenation can be sliced back out. */
  lemma ThreeParts(a: string, b: string, c: string)
    ensures var s := a + b + c;
      && s[..|a|] == a && s[|s| - |c|..] == c && s[|a|..|s| - |c|] == b
  {
  }

  /** The clause part is empty exactly when neither a service nor a platform
      was given; it opens with " for " exactly when a service was given, and
      then with that service; it ends with " on " and the platform when a
      platform was given, and is the service clause alone otherwise. */
  lemma MiddleClauses(sub: Option<Submission>)
    ensures Middle(sub) == "" <==> !(sub.Some? && (Truthy(sub.value.serviceType) || Truthy(sub.value.platform)))
    ensures |Middle(sub)| >= 5 && Middle(sub)[..5] == " for " <==> sub.Some? && Truthy(sub.value.serviceType)
    ensures sub.Some? && Truthy(sub.value.serviceType) ==>
      var svc := " for " + sub.value.serviceType.value; |svc| <= |Middle(sub)| && Middle(sub)[..|svc|] == svc
    ensures sub.Some? && Truthy(sub.value.platform) ==>
      var plat := " on " + sub.value.platform.value; |plat| <= |Middle(sub)| && Middle(sub)[|Middle(sub)| - |plat|..] == plat
    ensures !(sub.Some? && Truthy(sub.value.platform)) ==> Middle(sub) == ServiceClause(sub)
  {
    var mid := Middle(sub);
    if sub.Some? && Truthy(sub.value.serviceType) {
      assert mid[..5] == " for ";
      assert mid[..|ServiceClause(sub)|] == ServiceClause(sub);
    } else if |mid| >= 5 {
      assert mid[..5] == PlatformClause(sub)[..5];
      assert mid[2] == 'n';
    }
    if sub.Some? && Truthy(sub.value.platform) {
      assert mid[|mid| - |PlatformClause(sub)|..] == PlatformClause(sub);
    }
  }

  /** Only the first word of the name reaches the sentence: names that agree
      on it give the same confirmation. */
  lemma OnlyFirstWordShows(sub: Submission, other: string)
    requires sub.name.Some? && FirstWord(sub.name.value) == FirstWord(other)
    ensures Confirmation(Some(sub)) == Confirmation(Some(sub.(name := Some(other))))
  {
  }

  /** Without a submission the popup still thanks the visitor, as "there". */
  lemma NoSubmission()
    ensures Confirmation(None) == Opening(Anonymous) + Closing
  {
  }
}
