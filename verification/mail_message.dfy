/** The notification the relay sends for one lead: a subject, a plain-text
    body and an HTML body, rendered from the request fields with fixed copy.
    Optional fields fall back to "N/A"; the notes keep their line breaks in
    text and have them turned into `<br/>` in HTML; nothing is escaped. */
module MailMessage {
  import opened JsValue
  import opened JsString

  /** A request that passed the presence check: the four required fields
      are strings, the four optional ones may be missing. */
  datatype Lead = Lead(
    name: string,
    email: string,
    phone: string,
    serviceType: string,
    platform: Option<string>,
    storeLink: Option<string>,
    category: Option<string>,
    challenges: Option<string>)

  datatype Message = Message(subject: string, text: string, html: string)

  const SubjectPrefix := "Your appointment with AMZCOZ \U{2014} "

  function Subject(l: Lead): string {
    SubjectPrefix + Or(Some(l.serviceType), "Consultation")
  }

  /** The `'Consultation'` fallback never shows once the service type is present. */
  lemma SubjectNamesService(l: Lead)
    requires l.serviceType != ""
    ensures Subject(l) == SubjectPrefix + l.serviceType
    ensures |Subject(l)| > |SubjectPrefix|
  {
  }

  // ----- The fixed copy of the two bodies -----

  const TextThanks := "Thanks for booking with AMZCOZ! This email is to confirm we received your "
  const TextContact := "If you need to update your request, please reply to this email or visit https://amzcoz.com/contact or call +91 80072 08742."
  const TextLookForward := "We look forward to speaking with you!"
  const HtmlNotesOpen := "            <p style=\"margin:0 0 16px 0;color:#cbd5e1\">"
  const HtmlWrapperOpen := "      <div style=\"font-family:Arial,Helvetica,sans-serif;background:#0b0b0c;padding:24px;color:#e5e7eb\">"
  const HtmlCardOpen := "        <div style=\"max-width:640px;margin:0 auto;background:#0f1115;border:1px solid #1f2937;border-radius:12px;overflow:hidden\">"
  const HtmlAccentOpen := "          <div style=\"padding:20px 24px;border-left:4px solid #60A5FA\">"
  const HtmlSubjectOpen := "            <p style=\"margin:0 0 12px 0;color:#93C5FD;font-weight:600\">Subject: <span style=\"color:#e5e7eb\">"
  const HtmlGreetingOpen := "            <p style=\"margin:16px 0 8px 0\">Hi <strong>"
  const HtmlThanksOpen := "            <p style=\"margin:8px 0\">Thanks for booking with <strong>AMZCOZ</strong>! This email is to confirm we received your <strong>"
  const HtmlSpacer := "            <div style=\"height:12px\"></div>"
  const HtmlDetailsHeading := "            <p style=\"margin:0 0 8px 0;font-weight:600;color:#e5e7eb\">Request Details</p>"
  const HtmlListOpen := "            <ul style=\"margin:0 0 16px 0;padding-left:18px;color:#cbd5e1\">"
  const HtmlNotesHeading := "            <p style=\"margin:0 0 6px 0;font-weight:600;color:#e5e7eb\">Requirements / Notes</p>"
  const HtmlContactParagraph := "            <p style=\"margin:16px 0;color:#cbd5e1\">If you need to reschedule or update your request, please visit <a href=\"https://amzcoz.com/contact\" style=\"color:#93C5FD;text-decoration:underline\">amzcoz.com/contact</a> or call <a href=\"tel:+918007208742\" style=\"color:#93C5FD;text-decoration:none\">+91 80072 08742</a>.</p>"
  const HtmlClosingParagraph := "            <p style=\"margin:16px 0 0 0\">We look forward to speaking with you!<br/>Best regards,</p>"
  const HtmlSignatureParagraph := "            <p style=\"margin:8px 0 0 0;font-weight:600\">AMZCOZ Team</p>"
  const HtmlItemOpen := "              <li><strong>"

  /** The labelled request details both bodies list, in order, with what
      each shows for a lead: the required fields as sent, the optional ones
      with the "N/A" fallback. */
  function Details(l: Lead): (ds: seq<(string, string)>)
    ensures |ds| == 7
  {
    [ ("Name", l.name), ("Email", l.email), ("Phone", l.phone), ("Service Type", l.serviceType),
      ("Platform", Or(l.platform, "N/A")), ("Store/Website", Or(l.storeLink, "N/A")),
      ("Category", Or(l.category, "N/A")) ]
  }

  /** How a detail reads in the plain text: `• Label: value`. */
  function TextItem(d: (string, string)): string {
    "\U{2022} " + d.0 + ": " + d.1
  }

  /** How a detail reads in the HTML: an indented list item. */
  function HtmlItem(d: (string, string)): string {
    HtmlItemOpen + d.0 + ":</strong> " + d.1 + "</li>"
  }

  /** The entries of the plain-text array before the details. */
  function TextOpening(l: Lead): (ls: seq<string>)
    ensures |ls| == 6
  {
    [ "Subject: " + Subject(l),
      "",
      "Hi " + l.name + ",",
      TextThanks + Or(Some(l.serviceType), "consultation") + " request.",
      "",
      "Request Details:" ]
  }

  /** The entries of the plain-text array after the details; the notes are
      the third. */
  function TextClosing(l: Lead): (ls: seq<string>)
    ensures |ls| == 10 && ls[2] == Or(l.challenges, "N/A")
  {
    [ "",
      "Requirements / Notes:",
      Or(l.challenges, "N/A"),
      "",
      TextContact,
      "",
      TextLookForward,
      "Best regards,",
      "",
      "AMZCOZ Team" ]
  }

  /** The entries of the plain-text array, in order, before `.join('\n')`.
      An entry whose value holds a newline spans several lines of the body. */
  function TextLines(l: Lead): (ls: seq<string>)
    ensures |ls| == 23
    ensures forall k | 0 <= k < 7 :: ls[6 + k] == TextItem(Details(l)[k])
    ensures ls[15] == Or(l.challenges, "N/A")
  {
    var items := seq(7, k requires 0 <= k < 7 => TextItem(Details(l)[k]));
    TextOpening(l) + items + TextClosing(l)
  }

  function TextBody(l: Lead): string {
    JoinWith(TextLines(l), "\n")
  }

  /** The notes paragraph of the HTML body. */
  function NotesHtml(challenges: Option<string>): string {
    ReplaceAll(Or(challenges, "N/A"), '\n', "<br/>")
  }

  /** The HTML notes hold no line break; they are the notes' lines, each
      kept as it is, joined by `<br/>`; they are the notes themselves when
      those have no line break, and grow by four characters per line break. */
  lemma NotesHtmlProperties(challenges: Option<string>)
    ensures '\n' !in NotesHtml(challenges)
    ensures NotesHtml(challenges) == JoinWith(Split(Or(challenges, "N/A"), '\n'), "<br/>")
    ensures '\n' !in Or(challenges, "N/A") ==> NotesHtml(challenges) == Or(challenges, "N/A")
    ensures |NotesHtml(challenges)| == |Or(challenges, "N/A")| + 4 * Count(Or(challenges, "N/A"), '\n')
  {
    BreaksReplaced(Or(challenges, "N/A"));
  }

  lemma BreaksReplaced(s: string)
    ensures '\n' !in ReplaceAll(s, '\n', "<br/>")
    ensures '\n' !in s ==> ReplaceAll(s, '\n', "<br/>") == s
    ensures |ReplaceAll(s, '\n', "<br/>")| == |s| + 4 * Count(s, '\n')
    ensures ReplaceAll(s, '\n', "<br/>") == JoinWith(Split(s, '\n'), "<br/>")
  {
    ReplaceAllIsSplitJoin(s, '\n', "<br/>");
    ReplaceAllRemoves(s, '\n', "<br/>");
    ReplaceAllLength(s, '\n', "<br/>");
  }

  /** Missing or empty notes read "N/A" in the HTML too. */
  lemma NotesHtmlFallback(challenges: Option<string>)
    requires !Truthy(challenges)
    ensures NotesHtml(challenges) == "N/A"
  {
    ReplaceAllRemoves("N/A", '\n', "<br/>");
  }

  /** The notes paragraph line of the HTML body. */
  function NotesLine(challenges: Option<string>): string {
    HtmlNotesOpen + NotesHtml(challenges) + "</p>"
  }

  /** The HTML lines before the detail list items; the template literal
      opens with a line break, hence the empty first line. */
  function HtmlOpening(l: Lead): (ls: seq<string>)
    ensures |ls| == 10
  {
    [ "",
      HtmlWrapperOpen,
      HtmlCardOpen,
      HtmlAccentOpen,
      HtmlSubjectOpen + Subject(l) + "</span></p>",
      HtmlGreetingOpen + l.name + "</strong>,</p>",
      HtmlThanksOpen + Or(Some(l.serviceType), "consultation") + "</strong> request.</p>",
      HtmlSpacer,
      HtmlDetailsHeading,
      HtmlListOpen ]
  }

  /** The HTML lines after the detail list items; the notes paragraph is the
      third, and the literal ends with a line break and the closing
      indentation. */
  function HtmlClosing(l: Lead): (ls: seq<string>)
    ensures |ls| == 10 && ls[2] == NotesLine(l.challenges)
  {
    [ "            </ul>",
      HtmlNotesHeading,
      NotesLine(l.challenges),
      HtmlContactParagraph,
      HtmlClosingParagraph,
      HtmlSignatureParagraph,
      "          </div>",
      "        </div>",
      "      </div>",
      "    " ]
  }

  /** The lines of the HTML template literal, in order. A value holding a
      newline adds lines inside its template line. */
  function HtmlLines(l: Lead): (ls: seq<string>)
    ensures |ls| == 27
    ensures forall k | 0 <= k < 7 :: ls[10 + k] == HtmlItem(Details(l)[k])
    ensures ls[19] == NotesLine(l.challenges)
  {
    var items := seq(7, k requires 0 <= k < 7 => HtmlItem(Details(l)[k]));
    HtmlOpening(l) + items + HtmlClosing(l)
  }

  function HtmlBody(l: Lead): string {
    JoinWith(HtmlLines(l), "\n")
  }

  function Render(l: Lead): Message {
    Message(Subject(l), TextBody(l), HtmlBody(l))
  }

  // ----- The facts both bodies carry -----

  /** The plain-text body lists every detail of the lead on a line of its own. */
  lemma TextBodyListsDetails(l: Lead)
    ensures forall k | 0 <= k < 7 :: IsLineOf(TextItem(Details(l)[k]), TextBody(l))
  {
    forall k | 0 <= k < 7 ensures IsLineOf(TextItem(Details(l)[k]), TextBody(l)) {
      var i := JoinHasLine(TextLines(l), 6 + k);
    }
  }

  /** The HTML body lists every detail of the lead, as a list item on a line
      of its own: the same labels with the same values as the plain text. */
  lemma HtmlBodyListsDetails(l: Lead)
    ensures forall k | 0 <= k < 7 :: IsLineOf(HtmlItem(Details(l)[k]), HtmlBody(l))
  {
    forall k | 0 <= k < 7 ensures IsLineOf(HtmlItem(Details(l)[k]), HtmlBody(l)) {
      var i := JoinHasLine(HtmlLines(l), 10 + k);
    }
  }

  /** The notes: verbatim as a block of lines in the plain text, and with
      their line breaks turned into `<br/>` inside one paragraph line of the
      HTML. */
  lemma BodiesCarryNotes(l: Lead)
    ensures IsLineOf(Or(l.challenges, "N/A"), TextBody(l))
    ensures IsLineOf(NotesLine(l.challenges), HtmlBody(l))
  {
    var i := JoinHasLine(TextLines(l), 15);
    var j := JoinHasLine(HtmlLines(l), 19);
  }
}
