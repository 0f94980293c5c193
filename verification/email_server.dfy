/** The e-mail relay's request handler: the presence check on the four
    required fields, the notification it renders, the two-attempt dispatch
    (the submitter as sender first, the configured sender as fallback) and
    the JSON response. The SMTP transport is an oracle saying whether a given
    send attempt is accepted; the configuration is read once at start-up. */
module EmailServer {
  import opened JsValue
  import opened MailMessage

  // ----- Configuration -----

  /** The six variables read from the environment at start-up. */
  datatype Env = Env(
    smtpHost: Option<string>,
    smtpPort: Option<string>,
    smtpUser: Option<string>,
    smtpPass: Option<string>,
    toEmail: Option<string>,
    fromEmail: Option<string>)

  /** The names of the configuration variables that are unset or empty. */
  function MissingVars(env: Env): set<string> {
    (if Truthy(env.smtpHost) then {} else {"SMTP_HOST"})
    + (if Truthy(env.smtpPort) then {} else {"SMTP_PORT"})
    + (if Truthy(env.smtpUser) then {} else {"SMTP_USER"})
    + (if Truthy(env.smtpPass) then {} else {"SMTP_PASS"})
    + (if Truthy(env.toEmail) then {} else {"TO_EMAIL"})
    + (if Truthy(env.fromEmail) then {} else {"FROM_EMAIL"})
  }

  /** The start-up check: a warning is logged as soon as one variable is
      falsy. It only warns; the server starts either way. */
  function WarnsAtStartup(env: Env): (warn: bool)
    ensures warn <==> MissingVars(env) != {}
  {
    !(Truthy(env.smtpHost) && Truthy(env.smtpPort) && Truthy(env.smtpUser)
      && Truthy(env.smtpPass) && Truthy(env.toEmail) && Truthy(env.fromEmail))
  }

  /** A JavaScript number as far as the port setting needs it: an integer,
      or anything else `Number()` can produce (`NaN`, a fraction, an infinity). */
  datatype JsNumber = Int(n: int) | NotInteger

  /** The SMTP connection settings handed to the transport. */
  datatype Transport = Transport(
    host: Option<string>,
    port: JsNumber,
    secure: bool,
    user: Option<string>,
    pass: Option<string>)

  const DefaultSmtpPort := 587
  const ImplicitTlsPort := 465

  /** `Number(SMTP_PORT || 587)`, with `Number` applied to a string given as
      the parameter `toNumber`. */
  function SmtpPort(env: Env, toNumber: string -> JsNumber): (port: JsNumber)
    ensures !Truthy(env.smtpPort) ==> port == Int(DefaultSmtpPort)
    ensures Truthy(env.smtpPort) ==> port == toNumber(env.smtpPort.value)
  {
    if Truthy(env.smtpPort) then toNumber(env.smtpPort.value) else Int(DefaultSmtpPort)
  }

  /** The transport settings; TLS from the first byte exactly on port 465. */
  function MakeTransport(env: Env, toNumber: string -> JsNumber): (t: Transport)
    ensures t.host == env.smtpHost && t.user == env.smtpUser && t.pass == env.smtpPass
    ensures t.port == SmtpPort(env, toNumber)
    ensures t.secure <==> t.port == Int(ImplicitTlsPort)
  {
    var port := SmtpPort(env, toNumber);
    Transport(env.smtpHost, port, port == Int(ImplicitTlsPort), env.smtpUser, env.smtpPass)
  }

  /** With no port configured the connection is plain on 587, and implicit TLS
      is used only when the configured port reads as 465. */
  lemma SecureOnlyOn465(env: Env, toNumber: string -> JsNumber)
    ensures !Truthy(env.smtpPort) ==> MakeTransport(env, toNumber) == Transport(env.smtpHost, Int(587), false, env.smtpUser, env.smtpPass)
    ensures MakeTransport(env, toNumber).secure <==> Truthy(env.smtpPort) && toNumber(env.smtpPort.value) == Int(465)
  {
  }

  // ----- The request -----

  /** The properties of the JSON body the handler reads; any of them may be
      missing. */
  datatype Body = Body(
    name: Option<string>,
    email: Option<string>,
    phone: Option<string>,
    serviceType: Option<string>,
    platform: Option<string>,
    storeLink: Option<string>,
    category: Option<string>,
    challenges: Option<string>)

  const EmptyBody := Body(None, None, None, None, None, None, None, None)

  /** `req.body || {}`: a missing body reads as an object without properties. */
  function Fields(body: Option<Body>): (b: Body)
    ensures body.Some? ==> b == body.value
    ensures body.None? ==> b == EmptyBody
  {
    match body
    case Some(b) => b
    case None => EmptyBody
  }

  /** `!name || !email || !phone || !serviceType` is false. */
  predicate HasRequired(b: Body) {
    Truthy(b.name) && Truthy(b.email) && Truthy(b.phone) && Truthy(b.serviceType)
  }

  /** The fields a request that passed the presence check is rendered from. */
  function ToLead(b: Body): (l: Lead)
    requires HasRequired(b)
    ensures l.name == b.name.value && l.email == b.email.value
    ensures l.phone == b.phone.value && l.serviceType == b.serviceType.value
    ensures l.platform == b.platform && l.storeLink == b.storeLink
    ensures l.category == b.category && l.challenges == b.challenges
  {
    Lead(b.name.value, b.email.value, b.phone.value, b.serviceType.value,
      b.platform, b.storeLink, b.category, b.challenges)
  }

  // ----- Dispatch -----

  /** The options of one `sendMail` call. */
  datatype MailOptions = MailOptions(
    from: Option<string>,
    to: Option<string>,
    replyTo: string,
    subject: string,
    text: string,
    html: string)

  /** Whether the transport accepts the `i`-th attempt of a request (0 or 1)
      with these options; rejection is `sendMail` throwing. */
  type Oracle = (nat, MailOptions) -> bool

  /** The first attempt: sent in the submitter's name, to the configured
      recipient, replies going to the submitter. */
  function Primary(env: Env, l: Lead): (m: MailOptions)
    ensures m.from == Some(l.email) && m.to == env.toEmail && m.replyTo == l.email
    ensures m.subject == Subject(l) && m.text == TextBody(l) && m.html == HtmlBody(l)
  {
    var msg := Render(l);
    MailOptions(Some(l.email), env.toEmail, l.email, msg.subject, msg.text, msg.html)
  }

  /** The fallback: the first attempt with the configured sender instead. */
  function Fallback(env: Env, l: Lead): (m: MailOptions)
    ensures m == Primary(env, l).(from := env.fromEmail)
  {
    Primary(env, l).(from := env.fromEmail)
  }

  /** The attempts made for one lead, in order, and whether one was accepted:
      the fallback is tried only when the first attempt is rejected. */
  function Dispatch(env: Env, l: Lead, accepts: Oracle): (r: (seq<MailOptions>, bool))
    ensures 1 <= |r.0| <= 2 && r.0[0] == Primary(env, l)
    ensures |r.0| == 2 <==> !accepts(0, Primary(env, l))
    ensures |r.0| == 2 ==> r.0[1] == Fallback(env, l)
    ensures r.1 <==> exists i | 0 <= i < |r.0| :: accepts(i, r.0[i])
  {
    var first := Primary(env, l);
    if accepts(0, first) then ([first], true)
    else
      var second := Fallback(env, l);
      ([first, second], accepts(1, second))
  }

  // ----- The handler -----

  /** The JSON body of a response: `{ ok: true }`, or `{ ok: false, message }`. */
  datatype Reply = Sent | Refused(message: string)

  /** A handled request: status code, JSON reply and the send attempts made. */
  datatype Exchange = Exchange(status: int, reply: Reply, attempts: seq<MailOptions>)

  const MissingFields := "Missing required fields"
  const SendFailed := "Email send failed"

  /** `POST /api/send-email`. */
  function HandleSendEmail(env: Env, body: Option<Body>, accepts: Oracle): (x: Exchange)
    ensures x.status in {200, 400, 500}
    ensures x.status == 400 <==> !HasRequired(Fields(body))
    ensures x.status == 400 ==> x.reply == Refused(MissingFields) && x.attempts == []
    ensures x.status == 200 <==> x.reply == Sent
    ensures x.status == 500 ==> x.reply == Refused(SendFailed)
    ensures x.status != 400 ==> 1 <= |x.attempts| <= 2
    ensures x.status != 400 ==>
      (x.status == 200 <==> exists i | 0 <= i < |x.attempts| :: accepts(i, x.attempts[i]))
  {
    var b := Fields(body);
    if !HasRequired(b) then Exchange(400, Refused(MissingFields), [])
    else
      var (attempts, delivered) := Dispatch(env, ToLead(b), accepts);
      if delivered then Exchange(200, Sent, attempts)
      else Exchange(500, Refused(SendFailed), attempts)
  }

  /** Every attempt carries the same recipient, reply address, subject and
      bodies; only the sender can differ, and the first names the submitter. */
  lemma AttemptsDifferOnlyInSender(env: Env, b: Body, accepts: Oracle)
    requires HasRequired(b)
    ensures var x := HandleSendEmail(env, Some(b), accepts);
      && x.attempts[0].from == b.email
      && (forall i | 0 <= i < |x.attempts| ::
            x.attempts[i].(from := None) == x.attempts[0].(from := None)
            && x.attempts[i].to == env.toEmail && x.attempts[i].replyTo == b.email.value)
      && (|x.attempts| == 2 ==> x.attempts[1].from == env.fromEmail)
  {
  }

  /** Once the presence check passes, every attempt's subject names the
      requested service; the "Consultation" fallback is never used. */
  lemma SubjectNamesRequestedService(env: Env, b: Body, accepts: Oracle)
    requires HasRequired(b)
    ensures forall m | m in HandleSendEmail(env, Some(b), accepts).attempts :: m.subject == SubjectPrefix + b.serviceType.value
  {
    SubjectNamesService(ToLead(b));
  }

  /** A rejected first attempt followed by an accepted fallback still
      answers 200: the sender change is invisible to the caller. */
  lemma FallbackRescues(env: Env, b: Body, accepts: Oracle)
    requires HasRequired(b)
    requires !accepts(0, Primary(env, ToLead(b))) && accepts(1, Fallback(env, ToLead(b)))
    ensures HandleSendEmail(env, Some(b), accepts).status == 200
    ensures |HandleSendEmail(env, Some(b), accepts).attempts| == 2
  {
  }

  /** With both attempts rejected the caller gets 500 "Email send failed". */
  lemma BothRejectedFails(env: Env, b: Body, accepts: Oracle)
    requires HasRequired(b)
    requires !accepts(0, Primary(env, ToLead(b))) && !accepts(1, Fallback(env, ToLead(b)))
    ensures HandleSendEmail(env, Some(b), accepts) == Exchange(500, Refused(SendFailed), [Primary(env, ToLead(b)), Fallback(env, ToLead(b))])
  {
  }

  /** A request without a body, or with any required field missing or empty,
      is answered 400 without touching the transport. */
  lemma MissingFieldNeverSends(env: Env, body: Option<Body>, accepts: Oracle)
    requires body.None? || !Truthy(body.value.name) || !Truthy(body.value.email)
      || !Truthy(body.value.phone) || !Truthy(body.value.serviceType)
    ensures HandleSendEmail(env, body, accepts) == Exchange(400, Refused(MissingFields), [])
  {
  }

  /** The optional fields never decide the status code: two bodies that agree
      on the required fields get the same answer from the same transport. */
  lemma OptionalFieldsDoNotGate(env: Env, b: Body, c: Body, accepts: Oracle)
    requires b.name == c.name && b.email == c.email && b.phone == c.phone && b.serviceType == c.serviceType
    ensures HandleSendEmail(env, Some(b), accepts).status == 400 <==> HandleSendEmail(env, Some(c), accepts).status == 400
  {
  }

  /** A transport that accepts at least what another accepts never turns a
      delivered request into a failed one. */
  lemma MoreAcceptingTransportNeverWorse(env: Env, body: Option<Body>, weak: Oracle, strong: Oracle)
    requires forall i, m :: weak(i, m) ==> strong(i, m)
    ensures HandleSendEmail(env, body, weak).status == 200 ==> HandleSendEmail(env, body, strong).status == 200
  {
    var b := Fields(body);
    if HasRequired(b) && HandleSendEmail(env, body, weak).status == 200 {
      var l := ToLead(b);
      if !strong(0, Primary(env, l)) {
        assert !weak(0, Primary(env, l));
        assert weak(1, Fallback(env, l));
      }
    }
  }

  /** The reply does not say which attempt went through: a transport that
      takes the first attempt and one that takes only the fallback give the
      caller the same status and body. */
  lemma CallerCannotTellAttempts(env: Env, b: Body, first: Oracle, second: Oracle)
    requires HasRequired(b)
    requires first(0, Primary(env, ToLead(b)))
    requires !second(0, Primary(env, ToLead(b))) && second(1, Fallback(env, ToLead(b)))
    ensures HandleSendEmail(env, Some(b), first).status == HandleSendEmail(env, Some(b), second).status == 200
    ensures HandleSendEmail(env, Some(b), first).reply == HandleSendEmail(env, Some(b), second).reply == Sent
    ensures |HandleSendEmail(env, Some(b), first).attempts| == 1 && |HandleSendEmail(env, Some(b), second).attempts| == 2
  {
  }
}
