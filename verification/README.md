# AMZCOZ lead capture, modelled in Dafny

This project models the lead-capture path of the AMZCOZ marketing site. It
proves properties about that model. The path has four parts:

- **The e-mail relay** (`POST /api/send-email`) does the following:
  - checks that the four required fields are present;
  - renders a subject, a plain-text body and an HTML body;
  - sends the notification with a two-attempt policy: first in the submitter's name, then from the configured sender;
  - answers 200, 400 or 500.

  The SMTP transport is an oracle `(attempt index, mail options) -> accepted?`.
- **The lead form's state logic**: `validateForm` with its e-mail and phone
  patterns, `handleChange`, the submit gate and the reset value.
- **The SEO head**: the full title, the canonical URL, the image URL, and
  which tags are emitted in which order.
- **The booking confirmation popup**: the first name and the confirmation
  sentence.

The form's submission is simulated with timers and never reaches the relay.
So the form's checks and the relay's check are modelled as two independent
validators. `ValidationContrast` states how they relate.

Modules:

| file | module | contents |
|---|---|---|
| `js_value.dfy` | `JsValue` | missing values, JS truthiness, `x \|\| d` and default parameters |
| `js_string.dfy` | `JsString` | JS whitespace, `trim`, `indexOf`, `split`, `join`, global `replace` by a `$`-free string |
| `form_patterns.dfy` | `FormPatterns` | the e-mail and phone regular expressions, each as a match predicate and a direct check |
| `lead_form.dfy` | `LeadForm` | form record, error map, `validateForm`, `handleChange`, submit gate, reset |
| `mail_message.dfy` | `MailMessage` | subject, plain-text body and HTML body of the notification |
| `email_server.dfy` | `EmailServer` | configuration, transport settings, presence check, dispatch, responses |
| `seo.dfy` | `Seo` | full title, canonical URL, image URL, the tag list |
| `success_popup.dfy` | `SuccessPopup` | first name and confirmation sentence |
| `validation_contrast.dfy` | `ValidationContrast` | the form's checks against the relay's check |

Conventions:

- `Option<string>` with `None` stands for an `undefined` property.
- A string is truthy when it is present and non-empty.
- Strings are sequences of characters. The whitespace set shared by `\s` and `trim()` is the one JavaScript defines, listed in `JsString.IsWhitespace`.

## Model

| member | source | states |
|---|---|---|
| JsValue.OrVersusDefault | src/components/SEO/SEO.jsx:9-11 | A default parameter and a `\|\| d` fallback give different results only for a present empty string. An explicit `ogImage: ''` is kept, not replaced. |
| JsString.TrimStartSpec | src/components/LeadForm/LeadForm.jsx:44 | Trimming the front drops a whitespace-only prefix and stops at the first non-whitespace character. |
| JsString.TrimEndSpec | src/components/LeadForm/LeadForm.jsx:44 | Trimming the end drops a whitespace-only suffix and stops at the last non-whitespace character. |
| JsString.TrimIsInfix | src/components/LeadForm/LeadForm.jsx:44 | `trim()` yields a contiguous slice of the input. Everything dropped on either side is whitespace, and the result neither starts nor ends with whitespace. |
| JsString.TrimEmptyIff | src/components/LeadForm/LeadForm.jsx:44 | `!v.trim()` holds exactly when every character of `v` is whitespace, including for the empty string. |
| JsString.IndexOf | src/components/SuccessPopup/SuccessPopup.jsx:21 | The position found holds the character, and no earlier position does. |
| JsString.SplitPiecesClean | src/components/SuccessPopup/SuccessPopup.jsx:21 | No piece of `split(c)` contains `c`. |
| JsString.JoinSplit | src/components/SuccessPopup/SuccessPopup.jsx:21 | Joining the pieces of `split(c)` with `c` gives back the original string, so nothing is lost or reordered. |
| JsString.SplitCount | src/components/SuccessPopup/SuccessPopup.jsx:21 | `split(c)` yields one more piece than there are occurrences of `c`. |
| JsString.JoinHasLine | server/emailServer.js:89 | Every element of a list joined with `'\n'` is a whole line of the result: it starts at the beginning or after a newline, and ends at the end or before one. |
| JsString.ReplaceAllLength | server/emailServer.js:110 | A global replace of `c` by a replacement without `$` grows the string by `\|rep\| - 1` per occurrence of `c`. |
| JsString.ReplaceAllAppend | server/emailServer.js:110 | A global replace by a replacement without `$` works piece by piece: replacing in `a + b` is replacing in `a` followed by replacing in `b`. |
| JsString.ReplaceAllRemoves | server/emailServer.js:110 | With a replacement free of `c` and of `$`, no `c` is left. A string without `c` comes back unchanged. |
| JsString.ReplaceAllIsSplitJoin | server/emailServer.js:110 | For a replacement without `$`, `s.replace(/c/g, rep)` equals `s.split(c).join(rep)`: the text between occurrences is kept exactly. |
| FormPatterns.MatchIsEmailFormat | src/components/LeadForm/LeadForm.jsx:50 | Every string the e-mail pattern matches has no whitespace and exactly one `@`. It also has a non-empty local part and a domain with an inner `.`. |
| FormPatterns.EmailFormatIsMatch | src/components/LeadForm/LeadForm.jsx:50 | Every string with those four properties is matched by the e-mail pattern. |
| FormPatterns.EmailFormatIff | src/components/LeadForm/LeadForm.jsx:50 | The e-mail pattern accepts a string exactly when it meets the four conditions above. |
| FormPatterns.PhoneFormatIff | src/components/LeadForm/LeadForm.jsx:56 | The phone pattern accepts a string exactly when, after one optional leading `+`, it is a non-empty run of digits, whitespace, `-`, `(` and `)`. |
| FormPatterns.PhoneRejectsForeign | src/components/LeadForm/LeadForm.jsx:56 | Any character outside that class and `+` makes the phone pattern fail. |
| LeadForm.Set | src/components/LeadForm/LeadForm.jsx:35 | The field update sets exactly the named field and leaves the other five unchanged. |
| LeadForm.Validate | src/components/LeadForm/LeadForm.jsx:41-66 | Only name, e-mail, phone and category can ever carry an error. |
| LeadForm.ValidateFollowsRules | src/components/LeadForm/LeadForm.jsx:44-62 | For every field, the error map holds an entry exactly when that field's rule fails, with that rule's message. The rules are: a blank name; a blank or pattern-failing e-mail; a blank or pattern-failing phone; an empty category. |
| LeadForm.AllRulesMetIff | src/components/LeadForm/LeadForm.jsx:41-65 | The field-by-field list of conditions holds exactly when no field's rule reports a message. |
| LeadForm.IsValidIff | src/components/LeadForm/LeadForm.jsx:64-65 | `validateForm()` returns true exactly when all four rules are met. |
| LeadForm.ValidateIsFieldwise | src/components/LeadForm/LeadForm.jsx:41-62 | The checks do not short-circuit. Changing one field never adds, removes or alters another field's error. |
| LeadForm.OptionalFieldsNeverFail | src/components/LeadForm/LeadForm.jsx:41-66 | `storeLink` and `challenges` never produce an error. |
| LeadForm.EmailPaddingIsInvalid | src/components/LeadForm/LeadForm.jsx:48-52 | The e-mail pattern sees the untrimmed value. A non-blank address with leading or trailing whitespace is "Invalid email format", not "Email is required". |
| LeadForm.HandleChange | src/components/LeadForm/LeadForm.jsx:33-39 | Editing a field sets only that field. If that field had an error entry, its message becomes empty. No other field or error changes, and no error key is added or removed. |
| LeadForm.HandleChangeOverwrites | src/components/LeadForm/LeadForm.jsx:33-39 | Editing the same field twice is the same as editing it once with the last value. |
| LeadForm.HandleChangeCommutes | src/components/LeadForm/LeadForm.jsx:33-39 | Edits to two different fields give the same state in either order. |
| LeadForm.Submit | src/components/LeadForm/LeadForm.jsx:68-73 | Submitting replaces the errors with a fresh validation of the unchanged data. It proceeds exactly when all four rules are met. |
| LeadForm.ResetAfterSuccess | src/components/LeadForm/LeadForm.jsx:84-92 | After success all six fields are the empty string, and the error map is left as it was. |
| LeadForm.EmptyFormErrors | src/components/LeadForm/LeadForm.jsx:41-66 | Validating the reset form reports exactly the four "required" messages. |
| LeadForm.CategoryChoices | src/components/LeadForm/LeadForm.jsx:20-31 | Every offered category passes the category rule. The empty placeholder fails it. |
| MailMessage.SubjectNamesService | server/emailServer.js:63 | With a non-empty service type, the subject is the fixed prefix followed by that service type, never "Consultation". |
| MailMessage.TextLines | server/emailServer.js:65-89 | The plain-text body joins 23 entries with `'\n'`. Entries 7 to 13 are the seven details as `• Label: value`, and entry 16 is the notes or "N/A". Each entry is a single line only when its value has no newline. |
| MailMessage.HtmlLines | server/emailServer.js:91-117 | The HTML template has 27 lines of its own. Lines 11 to 17 hold the seven details as list items, and line 20 holds the notes paragraph. A value with a newline adds lines of its own inside its template line. |
| MailMessage.TextClosing | server/emailServer.js:79-88 | The third entry after the details is `challenges \|\| 'N/A'` verbatim. |
| MailMessage.HtmlClosing | server/emailServer.js:108-117 | The third template line after the list is the notes paragraph. |
| MailMessage.NotesHtmlProperties | server/emailServer.js:110 | The HTML notes contain no newline. They are the notes' lines, each unchanged, joined by `<br/>`. They equal the notes when those have no newline, and grow by four characters per newline. |
| MailMessage.BreaksReplaced | server/emailServer.js:110 | The same four facts for any string passed through the newline-to-`<br/>` replace. |
| MailMessage.NotesHtmlFallback | server/emailServer.js:110 | Missing or empty notes show as "N/A" in the HTML too. |
| MailMessage.TextBodyListsDetails | server/emailServer.js:72-78 | Each of the seven details, with its "N/A" fallback, is a whole line of the plain-text body. |
| MailMessage.HtmlBodyListsDetails | server/emailServer.js:101-107 | Each of the same seven details is a whole line of the HTML body, with the same labels and values as the plain text, unescaped. |
| MailMessage.BodiesCarryNotes | server/emailServer.js:81-110 | The notes are a block of lines in the plain text. In the HTML, the `<br/>` form of the notes fills one paragraph line. |
| EmailServer.WarnsAtStartup | server/emailServer.js:32-34 | The start-up warning is logged exactly when at least one of the six configuration variables is unset or empty. |
| EmailServer.SecureOnlyOn465 | server/emailServer.js:38-39 | Without a configured port the connection is plain on 587. Implicit TLS is used only when `SMTP_PORT` is set and reads as 465. |
| EmailServer.Dispatch | server/emailServer.js:119-139 | One or two attempts are made. The first is always the primary. The fallback follows exactly when the primary is rejected. Delivery happens exactly when some attempt is accepted. |
| EmailServer.HandleSendEmail | server/emailServer.js:46-145 | A missing required field gives 400 "Missing required fields" with no send. Otherwise one or two sends are made: 200 `{ok:true}` exactly when one is accepted, else 500 "Email send failed". No other status occurs. |
| EmailServer.AttemptsDifferOnlyInSender | server/emailServer.js:119-139 | Every attempt has the same recipient, reply address, subject, text and HTML. Reply-To is always the submitter. Only the sender differs: the submitter first, `FROM_EMAIL` in the fallback. |
| EmailServer.SubjectNamesRequestedService | server/emailServer.js:59-63 | Once the presence check passes, every attempt's subject names the requested service, never "Consultation". |
| EmailServer.FallbackRescues | server/emailServer.js:129-141 | A rejected first attempt followed by an accepted fallback answers 200 after exactly two sends. |
| EmailServer.BothRejectedFails | server/emailServer.js:129-145 | With both attempts rejected, the reply is 500 "Email send failed" after exactly those two sends. |
| EmailServer.MissingFieldNeverSends | server/emailServer.js:59-61 | A missing body, or any of the four required fields missing or empty, gives 400 "Missing required fields" without touching the transport. |
| EmailServer.OptionalFieldsDoNotGate | server/emailServer.js:59-61 | The optional fields never decide whether a request is refused with 400. |
| EmailServer.MoreAcceptingTransportNeverWorse | server/emailServer.js:119-141 | A transport that accepts at least what another accepts never turns a delivered request into a failed one. |
| EmailServer.CallerCannotTellAttempts | server/emailServer.js:119-141 | Success on the first attempt and success only on the fallback give the caller the same status and body. |
| Seo.TitleOf | src/components/SEO/SEO.jsx:14 | A title read back from a full title gives that full title once the " \| AMZCOZ" suffix is appended again. |
| Seo.TitleRoundTrip | src/components/SEO/SEO.jsx:14 | A page's own title can be read back from its full title. The default title "AMZCOZ - Amazon Growth Experts" is never mistaken for a page's own. |
| Seo.FullTitleInjective | src/components/SEO/SEO.jsx:14 | Two pages share a full title exactly when both lack a title or both have the same one. |
| Seo.PathOf | src/components/SEO/SEO.jsx:13-15 | A path read back from a URL gives that URL when put after the site origin. |
| Seo.CanonicalRoundTrip | src/components/SEO/SEO.jsx:13-15 | Every canonical URL starts with `https://amzcoz.com`, followed by the page's path. An omitted or empty path gives the bare origin. |
| Seo.Head | src/components/SEO/SEO.jsx:20-39 | The head has 12 tags, plus 3 when there is a description and 1 when there are keywords. |
| Seo.HeadAgrees | src/components/SEO/SEO.jsx:20-39 | Every emitted tag carries what the tag table gives for it. |
| Seo.HeadCovers | src/components/SEO/SEO.jsx:20-39 | Every tag the table calls for is emitted. |
| Seo.HeadFollowsTable | src/components/SEO/SEO.jsx:20-39 | A tag is emitted with some content exactly when the table calls for it with that content. The table: the full title in the title element and all three title metas; the canonical URL in the link, `og:url` and `twitter:url`; the image on the site origin in both image tags; the declared defaults. |
| Seo.MarkupIdentifiesKey | src/components/SEO/SEO.jsx:20-39 | Each of the sixteen tags is written with its own element and identifying attribute. Two tags are written alike exactly when they are the same tag. |
| Seo.DescriptionAllOrNothing | src/components/SEO/SEO.jsx:22-38 | The three description tags appear together, with the description, exactly when it is given. The keywords tag appears only when keywords are given. |
| Seo.Defaults | src/components/SEO/SEO.jsx:9-15 | Omitted props give the default title, the bare origin, type "website", image `https://amzcoz.com/og-image.jpg` and card "summary_large_image". An explicit empty `ogImage` leaves the bare origin as the image. |
| SuccessPopup.FirstWordSpec | src/components/SuccessPopup/SuccessPopup.jsx:21 | `split(' ')[0]` is the longest space-free prefix of the name: it is a prefix, contains no space, and is followed by a space or by nothing. |
| SuccessPopup.FirstNameSpec | src/components/SuccessPopup/SuccessPopup.jsx:21 | The greeting name is never empty and never contains a space. It is "there" exactly when the submission or name is missing, the name is empty or starts with a space, or its first word is itself "there". Otherwise it is the name's first word. |
| SuccessPopup.ConfirmationFrame | src/components/SuccessPopup/SuccessPopup.jsx:47-49 | The sentence opens with the greeting up to "booking" and ends with the call-back promise. Between them lies the clause part and nothing else. |
| SuccessPopup.MiddleClauses | src/components/SuccessPopup/SuccessPopup.jsx:48-49 | The clause part is empty exactly when neither a service nor a platform is given. It starts with " for " and the service exactly when a service is given. It ends with " on " and the platform when a platform is given, and is the service clause alone otherwise. |
| SuccessPopup.OnlyFirstWordShows | src/components/SuccessPopup/SuccessPopup.jsx:21-49 | Names that agree on their first word give the same sentence. |
| SuccessPopup.NoSubmission | src/components/SuccessPopup/SuccessPopup.jsx:21-49 | Without a submission the sentence thanks "there" and names neither service nor platform. |
| ValidationContrast.ClientValidPassesServer | src/components/LeadForm/LeadForm.jsx:44-58 | A form the client accepts has a non-empty name, e-mail and phone. So the relay's presence check passes for those three fields. |
| ValidationContrast.BlankNameSplitsTheChecks | server/emailServer.js:59 | A name of whitespace only is present for the relay but "Name is required" for the form. |
| ValidationContrast.AddressWithoutAtSplitsTheChecks | src/components/LeadForm/LeadForm.jsx:48-52 | A non-blank address without `@` is present for the relay but "Invalid email format" for the form. |
| ValidationContrast.ServerSendsSample | server/emailServer.js:59-61 | A request with a blank name, an address without `@` and a phone of `?` passes the relay's check and is sent on. |
| ValidationContrast.FormRefusesSample | src/components/LeadForm/LeadForm.jsx:41-62 | The form refuses the same values, each with its own message, plus the empty category. |

## Notes on the code

- The HTML body embeds every value unescaped. `MailMessage.HtmlBodyListsDetails` states that the values appear as given.
- The form has no service-type input and requires `category`. The relay only tests `name`, `email`, `phone` and `serviceType` for presence, and nothing checks `serviceType` against a list.
- A missing optional detail reads `• Platform: N/A` after its label. Only the notes section shows "N/A" on a line of its own.
- The popup is modelled as a component on its own. Its only caller, src/pages/Home/Home.jsx:303-315, opens it when `onSuccess` hands over details. But src/components/LeadForm/LeadForm.jsx:94 calls `onSuccess()` with no argument, so the caller never receives a submission to pass on, and the popup stays closed.

## Left out

- Express, CORS, JSON body parsing, dotenv, `app.listen` and the `console` calls are I/O plumbing. The handler is a function from configuration, request body and transport oracle to an exchange.
- nodemailer and SMTP are not modelled. `sendMail` is the oracle parameter. Timeouts and network errors are rejections like any other.
- `EmailServer.SmtpPort`: JavaScript's `Number()` on the `SMTP_PORT` string is the parameter `toNumber`. The model does not reproduce JavaScript's numeric parsing.
- Request properties that are not strings (numbers, arrays, objects) are left out. With them the source can throw while rendering, for example `.replace` on a number, and answer 500. The model's properties are strings or missing.
- Strings are sequences of Unicode characters, not UTF-16 code units. Nothing in the modelled code depends on the difference: the separators and whitespace characters involved are all single code units.
- React rendering, `setTimeout` delays, the `isSubmitting` and `isSuccess` flags, and the success message of the lead form are timing and UI. The form's own submission is a timer and a log line.
- Helmet's merging of head tags across components is not modelled. The model is the tag list one SEO component writes.
- The popup's dialog, overlay, Escape-key listener and animation are not modelled.
- The remaining pages and components are static content and layout with no behaviour to state: Services, About, Home, Contact, Portfolio, Moon3D, MoonGalaxy, Header, Footer, Modal, Button and ErrorBoundary.
- An explicit `null` prop is not modelled. `||` treats `null` as missing, but a default parameter keeps it: `<SEO ogImage={null}/>` yields the image URL `https://amzcoz.comnull`. No page in the source passes `null`.
- `LeadForm.Submit`: the model starts at `handleSubmit` and `validateForm` with the values as given. The `<form>` at src/components/LeadForm/LeadForm.jsx:114 has no `noValidate`, so the browser's own checks run first and can block submission before `handleSubmit` runs. Those checks are the `type="email"` grammar (line 137) and the `type="url"` check on a non-empty store link (line 169). They are not modelled.
- `LeadForm.EmailPaddingIsInvalid`: a `type="email"` input strips leading and trailing ASCII whitespace from its value, and that cleanup is not modelled. Through the page, the padded case therefore only arises with other whitespace, such as U+00A0. The lemma is about `validateForm` applied to the value as given.
- `JsString.ReplaceAll`: JavaScript's `$` substitution patterns in a replacement string (`$$`, `$&`, `` $` ``, `$'`) are not modelled. The replacement is inserted literally, which is what JavaScript does for a replacement without `$`, such as the only one used, `'<br/>'` at server/emailServer.js:110.
