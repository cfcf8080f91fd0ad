# KPI details form — a Dafny model

The repository is a small web application in which an employee fills in a KPI report
(name, ID, reporting period, how their time splits between data engineering and frontend
DevOps, and a set of narrative fields) and sends it by mail. Its logic lives in two files:

- `script.js`, the page's controller. It holds a static table of validation rules, the
  `validateField` guard chain, and the `validateForm` pass over all ruled fields followed by
  two cross-field checks (date order, and the percentage total). It keeps one error marker
  per field, a single draft in `localStorage` under `kpiFormDraft` (`saveDraft`,
  `autoSave`, `loadDraftData`) and the submit flow `handleFormSubmit`, with its busy flag.
- `server.js`, the Express back end. Its `/submit-form` handler checks that the employee's
  name and ID are present and builds the subject line. It renders the report twice, as HTML
  and as plain text, with per-field fallbacks. It verifies the SMTP transport, sends the
  mail, and maps a transport error code to the message and status it answers with. As
  written, the handler builds its transport through a factory name the mail library does not
  export, so every request that passes the required check is answered with the generic
  SMTP failure (see "## Findings").

The Dafny project follows that split:

| file | module | what it holds |
|---|---|---|
| `wrappers.dfy` | `Wrappers` | `Option` |
| `js_text.dfy` | `JsText` | `String.prototype.trim`, `parseInt`, `parseFloat` (as exact numbers), date-input strings and their order |
| `field_rules.dfy` | `FieldRules` | the rule table, `getFieldLabel`'s text, the `validateField` decision, and a reference "first violated check" reading of it |
| `form_check.dfy` | `FormCheck` | what `validateForm` computes: the markers it leaves and its verdict |
| `controller.dfy` | `Controller` | the class `KpiForm` (values, markers, stored draft, busy flag, notification) with one method per handler |
| `server.dfy` | `Submission` | the two renderers, the subject line, and the `/submit-form` handler as a method |
| `scenarios.dfy` | `Scenarios` | a sample report checked end to end, and one submission carried from the browser through the server and back |

Values are modelled as follows.

- A form's values, a parsed request body and the process environment are `map<string, string>`.
  A missing key is `undefined`, and the empty string is falsy.
- A field's error marker is an entry of a `map<string, string>`.
- `localStorage['kpiFormDraft']` is `Option<Stored>`, where `Stored` is either a parsed
  draft or text that `JSON.parse` rejects.
- The server's answer, as the browser reads it, is an input `Reply`.
- The SMTP transport is an input `Transport`. It records whether creating it, `verify()`
  and `sendMail` fail, and with which error.

## Model

| member | source | states |
|---|---|---|
| JsText.Trim | script.js:170 | the trimmed value is no longer than the input, has no white space at either end, and is empty exactly when the input is all white space |
| JsText.TrimIsPiece | script.js:170 | the trimmed value is the piece of the input between a run of leading and a run of trailing white space |
| JsText.TrimUnchanged | script.js:170 | a value with no white space at either end is left as it is |
| JsText.ParseIntDecimal | script.js:155-156 | `parseInt` reads back every whole number written in decimal |
| JsText.ParseFloatDecimal | script.js:199 | `parseFloat` reads back every whole number written in decimal |
| JsText.ParseIntFraction | script.js:155-156 | on a decimal fraction `w.f`, `parseInt` gives the whole part `w` only |
| JsText.ParseFloatFraction | script.js:199 | on `w.f`, `parseFloat` gives the whole part plus the fraction |
| JsText.ParseHalfPercent | script.js:155-156 | "50.5" trims to itself, `parseInt` gives 50 and `parseFloat` gives 50.5 |
| JsText.ParseIntNeedsADigit | script.js:155-156 | a value with no decimal digit is NaN to `parseInt` |
| JsText.LexLeTotal | script.js:149 | any two date strings are ordered one way or the other |
| JsText.LexLeAntisymmetric | script.js:149 | two date strings ordered both ways are equal |
| JsText.DateOrderIsCalendarOrder | script.js:146-149 | on valid `yyyy-mm-dd` strings, the string order is the calendar order of the days |
| FieldRules.RuleFor | script.js:171-173 | a field has a rule exactly when it is one of the six names of `validationRules` |
| FieldRules.RuleForTable | script.js:7-38 | looking up any field of the table by name finds that entry's own rule |
| FieldRules.RuleTableDistinct | script.js:7-38 | the table's six field names are distinct |
| FieldRules.RuledNamesAreTableNames | script.js:7-38 | the names that have a rule are exactly the field names of the table |
| FieldRules.RemoveFirst | script.js:264 | `replace(':', '')` shortens a label holding a colon by exactly one character and leaves a label without one as it is |
| FieldRules.RemoveFirstSplits | script.js:264 | the character removed is the first colon: the text before it and the text after it stay, in order |
| FieldRules.FirstViolation | script.js:178-211 | picks the position of the first check the value violates, with every earlier check holding |
| FieldRules.DecideIsFirstViolation | script.js:178-215 | the guard chain passes exactly when no check in the order required, pattern, minLength, NaN, min, max is violated; otherwise it fails with the message of the first violated one ("<label> is required", "Please enter a valid number", or the rule's message) |
| FieldRules.UnruledFieldPasses | script.js:173 | a field with no rule always passes |
| FieldRules.EmptyOptionalPasses | script.js:179-184 | an empty or blank value of a field that is not required passes, whatever its pattern, length or bounds |
| FieldRules.EmptyRequiredFails | script.js:179-182 | an empty or blank value of a required field fails with "<label> is required" |
| FieldRules.RequiredPassIsNonBlank | script.js:179-182 | a required field that passes is not blank |
| FieldRules.EmployeeIdVerdict | script.js:186-189 | once non-empty, `employeeId` passes exactly when it is all ASCII letters and digits, and otherwise fails with the ID message |
| FieldRules.EmployeeNameVerdict | script.js:192-195 | once non-empty, `employeeName` fails with the name message exactly when its trimmed length is below 2 |
| FieldRules.PercentageVerdict | script.js:198-211 | once non-empty, a percentage fails with "Please enter a valid number" on NaN, with the range message outside 0..100, and passes otherwise |
| FieldRules.PercentVerdictMessages | script.js:198-211 | a percentage fails only with one of those two messages |
| FieldRules.WholePercentageVerdict | script.js:198-211 | a whole-number percentage written in decimal passes exactly when it is at most 100 |
| FieldRules.HalfPercentPasses | script.js:198-211 | a percentage of "50.5" passes the range check |
| FieldRules.DateRuleMessagesUnused | script.js:18-25 | a date field fails only on its required check, so the date rules' own messages are never shown |
| FormCheck.AllPassIff | script.js:136-143 | `isValid` after the loop over the first k fields is true exactly when none of them failed |
| FormCheck.FieldFailuresExact | script.js:136-143 | after the loop over the first k fields, exactly the failing fields among them carry a marker, each with its own verdict's message, and no other field does |
| FormCheck.AggregateValidIffNoMarkers | script.js:128-164 | `validateForm`'s result is true exactly when it leaves no marker |
| FormCheck.FormValidIffNoErrors | script.js:128-164 | the same, on the form's values |
| FormCheck.FormValidIff | script.js:128-164 | `validateForm` returns true exactly when every ruled field passes, the dates are not out of order and the `parseInt` total is at most 100 |
| FormCheck.FormValidFieldsPass | script.js:136-143 | in a valid form, each ruled field passes its own check |
| FormCheck.AggregateMarkers | script.js:136-161 | every failing field gets a marker, not only the first. A field keeps its own message unless a cross-field check overwrote it, and the cross-field checks mark no other field |
| FormCheck.AggregateCrossMarkers | script.js:145-161 | the total message sits on `frontendDevOpsTime` exactly when the total exceeds 100, and the order message sits on `periodEnd` exactly when the dates are out of order |
| FormCheck.CrossFieldErrorsIff | script.js:145-161 | the same on the form's values, whatever the two fields' own verdicts |
| FormCheck.NonNumericPercentCountsZero | script.js:155-156 | a percentage with no digit counts as 0 in the total |
| FormCheck.DatesOutOfOrderIff | script.js:146-152 | the order error fires exactly when both dates are valid and the start is on or after the end in the calendar |
| FormCheck.OrderedDatesPass | script.js:149-152 | two valid dates with the start strictly before the end never raise the order error |
| FormCheck.UnorderedDatesFail | script.js:149-152 | two valid dates with the start not before the end always raise it |
| FormCheck.FractionalPercentagesUndercount | script.js:155-158 | two percentages of 50.5 each pass their own range check, yet count 50 + 50 = 100 in the total, so 101% goes unflagged |
| Controller.FailureMessage | script.js:113-119 | the message shown after a failed submission is never empty. It is the server's or the exception's message when that message is non-empty; otherwise it is 'Submission failed' for a server reply and 'Submission failed. Please try again.' for an exception |
| Controller.NotificationIcon | script.js:412-419 | the icon is one of four, and it is `info-circle` exactly for a type other than success, error or warning |
| Controller.NotificationIconsDistinct | script.js:412-419 | the three named types get three different icons |
| Controller.RestoreFrame | script.js:298-303 | loading a draft keeps the set of controls, sets every control the draft names and leaves every other control alone |
| Controller.DraftRoundTrip | script.js:291-303 | a draft saved from a form loads back into a form with the same controls as exactly the saved values |
| Controller.DraftRoundTripDropsUnknown | script.js:298-303 | saved keys that are no control of the loading form are dropped |
| Controller.KpiForm.constructor | script.js:41-46 | the page as its HTML loads it, before the `DOMContentLoaded` handler runs `loadDraftData` (modelled separately by `LoadDraftData`): every control at its default, no marker, no notification, the button enabled |
| Controller.KpiForm.ShowFieldError | script.js:219-237 | the field carries exactly the one new message, and no other marker changes |
| Controller.KpiForm.ClearFieldError | script.js:239-246 | only this field's marker goes |
| Controller.KpiForm.ClearAllErrors | script.js:248-254 | no marker is left |
| Controller.KpiForm.ClearErrors | script.js:256-258 | the edited control loses its marker, and only it |
| Controller.KpiForm.ValidateField | script.js:167-216 | returns the field's verdict. A field with no rule keeps its marker; a ruled one is cleared and then marked with the failure's message |
| Controller.KpiForm.ShowVerdict | script.js:176-211 | the field's marker is cleared, then set to the verdict's message on failure |
| Controller.KpiForm.ValidateFields | script.js:132-143 | after clearing every marker and visiting every field of the table, the markers are those of the failing fields and the result is whether all passed |
| Controller.KpiForm.ValidateTableField | script.js:136-143 | one turn of that loop adds the field's marker to those of the fields before it |
| Controller.KpiForm.ValidateForm | script.js:128-164 | the markers left and the result are those of the form's values, and the result is true exactly when no marker is left |
| Controller.KpiForm.CollectFormData | script.js:83-89 | the plain object built from `FormData` holds every control's current value and nothing else |
| Controller.KpiForm.ScanHasData | script.js:313-321 | the scan finds data exactly when some control's trimmed value is not empty |
| Controller.KpiForm.SaveDraft | script.js:268-289 | the draft becomes a snapshot of every control's value, and a success notification is shown |
| Controller.KpiForm.AutoSave | script.js:312-330 | the same snapshot is written exactly when some value is not blank; otherwise the stored draft is left as it was |
| Controller.KpiForm.LoadDraftData | script.js:291-310 | a parsed draft is copied into the controls it names and an info notification is shown; with no draft or a malformed one nothing changes |
| Controller.KpiForm.Send | script.js:76-124 | the values are posted as they stand. On success the draft is removed and the form reset; on failure the draft and values are kept and the failure's message shown. The button is enabled again either way |
| Controller.KpiForm.HandleFormSubmit | script.js:68-125 | an invalid form sends nothing and changes neither values nor draft; a valid one is sent with the success and failure effects above. The markers are `validateForm`'s, and the button is never left busy |
| Submission.Render | server.js:33-163 | one line per template slot, under the slot's section and caption, showing the field when it is truthy and the slot's fallback otherwise |
| Submission.LayoutsShowSameFields | server.js:229-265 | the HTML and plain-text templates show the same fields, in the same order, with the same fallbacks |
| Submission.RenderingsAgree | server.js:229-265 | both renderings have 22 values and show identical values one for one |
| Submission.Fallbacks | server.js:61-157 | the two percentages fall back to "0" and every other field to "Not provided", in both templates |
| Submission.PersonalFallbacks | server.js:61-75 | the fallbacks of the personal and period section are those |
| Submission.NarrativeFallbacks | server.js:84-156 | the fallbacks of the four narrative sections are those |
| Submission.RenderedValuesNonEmpty | server.js:235-263 | no rendered value is ever blank |
| Submission.RenderingsShowEmployee | server.js:61-65 | once the required check passes, both renderings open with the employee's name and ID verbatim |
| Submission.Subject | server.js:193 | the subject starts with "KPI Report - ", ends with ")" and is exactly as long as the prefix, the name, the ID and " ()" together |
| Submission.SubjectRoundTrip | server.js:193 | the name and ID can be read back from the subject whenever the ID holds no "(" |
| Submission.SubjectInjective | server.js:193 | two reports with such IDs share a subject only when they share name and ID |
| Submission.AcceptedIdRoundTrip | server.js:193 | every ID the browser accepts can be read back from the subject |
| Submission.FirstError | server.js:184-199 | the handler catches no error exactly when creating the transport, `verify` and `sendMail` all succeed |
| Submission.SubmitForm | server.js:171-226 | a missing or empty name or ID gives 400 with "Employee name and ID are required" and no transport. Otherwise the mail's subject, bodies, sender and recipient are those of the request and environment. Success gives 200 with the message ID. Any failure gives 500 with the EAUTH, ECONNECTION or generic message, and the error's detail exactly in development |
| Submission.SubmitAsWritten | server.js:20-30 | with the transport factory as written, a request missing its name or ID still gets 400, and every other request gets 500 with the generic SMTP message (with the `TypeError`'s text in development) and no mail |
| Submission.ValidFormPassesRequiredCheck | server.js:176-181 | a form the browser accepts always passes the server's required check |
| Scenarios.OverAllocatedReportRejected | script.js:154-161 | a sample report at 60% + 50% totals 110, is rejected, and carries the total message on `frontendDevOpsTime` |
| Scenarios.BalancedReportAccepted | script.js:128-164 | the same report at 60% + 30% is accepted and leaves no marker |
| Scenarios.SampleDatesInOrder | script.js:146-152 | 2024-01-01 to 2024-01-31 raises no order error |
| Scenarios.IdVerdictAccepts | script.js:186-189 | a two-character ID of letters and digits passes |
| Scenarios.ReplyTo | script.js:100-102 | the browser counts the server's answer as a success exactly when the body's `success` is true |
| Scenarios.SubmitThroughServer | script.js:92-115 | with the server in the loop, an invalid form reaches no server and changes nothing. A delivered mail clears the draft, resets the form and shows the name and ID in both renderings. A failed one keeps draft and values and shows the message chosen by the error code |

## Left out

- DOM wiring, event listeners, timers, the success modal, the notification element and its
  fade-out, keyboard shortcuts and the injected CSS (script.js:41-65, 283-286, 374-538)
  are user interface only. A notification is modelled as the last `(message, type)` shown.
- `setupPercentageValidation` (script.js:333-358) only adjusts `max` attributes and warning
  classes; it changes no value, marker or draft. `setupDateValidation` (script.js:361-371)
  sets `periodEnd`'s `min`, and its `periodStart` change handler also clears `periodEnd`
  (sets its value to the empty string) whenever `periodEnd` is non-empty and its string is
  at or before the new start. That handler is not modelled, so a later `validateForm`,
  `saveDraft` or `autoSave` in the model sees `periodEnd` as the user left it.
- `fetch` and `response.json()` are modelled as the input `Reply`. `JSON.stringify` and
  `JSON.parse` of the draft are modelled as `Stored`: a parsed object of string values, or
  `Malformed`. A draft that parses to a non-object, or to an object with non-string
  values, is not distinguished.
- `parseInt` and `parseFloat` are exact. Decimal, hexadecimal (`parseInt` only), sign,
  fraction, exponent and `Infinity` are read, but numbers are kept as exact rationals, so
  double rounding of very long literals is not modelled.
- `value.length` counts UTF-16 code units in the source but Dafny characters here. Names
  with characters outside the Basic Multilingual Plane can differ by one in the length check.
- `new Date(...)` is modelled for what a date input can hold, the empty string or
  `yyyy-mm-dd`. Malformed strings, day-of-month rollover and years beyond four digits are
  not modelled. Invalid dates compare false, as in the source.
- `getFieldLabel` takes the labels' texts as a map (`labels`) instead of querying the DOM.
- In the server: Express, `cors`, `body-parser`, static serving, the `/` and `/health` routes
  and `app.listen` are framework plumbing. The app's own helper `createTransporter`
  (server.js:20-30) and the transporter's `verify` and `sendMail` are abstracted into
  `Transport`. The helper calls `nodemailer.createTransporter`, which the library does not
  provide (see "## Findings"). The HTML markup and CSS of the templates are
  reduced to the values they interpolate, with their sections and captions. Logging to
  the console is left out.
- Submission.SubmitForm: describes the handler with a transport factory that exists (any
  `Transport`, including one whose setup succeeds); the source as written always fails at
  the factory, which `Submission.SubmitAsWritten` models.
- Controller.KpiForm.SaveDraft and Controller.KpiForm.AutoSave: always store the snapshot.
  `localStorage.setItem` (script.js:276, 328) is called outside any `try`, so a quota or
  private-mode failure escapes both handlers with the draft unchanged; that exception path is
  not modelled.
- Controller.KpiForm.Send and Controller.KpiForm.HandleFormSubmit: the request is one atomic
  step, so the busy flag is set and cleared within it. What happens while `fetch` and
  `response.json()` are awaited (edits, `autoSave`, Ctrl+S, and the edits that `form.reset()`
  then discards on success) is not modelled.
- test-email.js is a connectivity script that only prints; it is not part of this model.
- The total check reads the two percentages with `parseInt` (script.js:155-156), while the range check uses
  `parseFloat`, so two fractional percentages that each pass can total just over 100% and go
  unflagged. The model keeps this behaviour as written; `FormCheck.FractionalPercentagesUndercount`
  exhibits it.
- `autoSave` keeps a stale draft when the user empties every field. The model keeps this
  behaviour as written (`Controller.KpiForm.AutoSave`).

## Findings

| source | as written | input that shows it | evidently intended | confidence | as-written member | corrected member |
|---|---|---|---|---|---|---|
| server.js:21 | `nodemailer.createTransporter({...})`; the library's factory is `createTransport`, so the call throws a `TypeError` with no `code` | any request with a non-empty `employeeName` and `employeeId` | `nodemailer.createTransport({...})`, after which `verify` and `sendMail` run and a delivered mail is answered 200 | not executed; relies on the mail library's published API | Submission.SubmitAsWritten | Submission.SubmitForm |
