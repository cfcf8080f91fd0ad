/** The server's `/submit-form` handler: the required-field check on the employee's name and
    ID, the mail it builds (subject line, HTML and plain-text renderings of the report) and
    the JSON response it sends for each outcome of the mail transport. The transport's
    three awaited steps (creating it, `verify`, `sendMail`) are an input value. */
module Submission {
  import opened Wrappers
  import opened FieldRules
  import opened FormCheck

  const RequiredMessage := "Employee name and ID are required"
  const SentMessage := "Form submitted and email sent successfully!"
  const GenericFailure := "Failed to send email. Please check your SMTP configuration."
  const AuthFailure := "SMTP authentication failed. Please check your email credentials."
  const ConnectionFailure := "Failed to connect to SMTP server. Please check your network connection."
  const NotProvided := "Not provided"
  const NoPercent := "0"
  const SubjectPrefix := "KPI Report - "

  /** A parsed request body or the process environment: names to string values; a missing
      name is `undefined`. */
  type Fields = map<string, string>

  /** `obj.key` is truthy: present and not the empty string. */
  predicate Provided(m: Fields, key: string) {
    key in m && m[key] != []
  }

  /** `obj.key`, possibly `undefined`. */
  function Lookup(m: Fields, key: string): (r: Option<string>)
    ensures r.Some? <==> key in m
    ensures r.Some? ==> r.value == m[key]
  {
    if key in m then Some(m[key]) else None
  }

  /** `obj.key || fallback` for a string-valued field. */
  function Display(m: Fields, key: string, fallback: string): string {
    if Provided(m, key) then m[key] else fallback
  }

  // The two renderings of the report

  /** One interpolated value of a template: the section and caption it appears under, the
      request field it shows and the text shown when that field is falsy. */
  datatype Slot = Slot(section: string, caption: string, field: string, fallback: string)

  /** One rendered value, under its section and caption. */
  datatype Line = Line(section: string, caption: string, value: string)

  const Personal := "Personal and Period Details"
  const DataEngineering := "Data Engineering-Related Items"
  const Frontend := "Frontend Development-Related Items"
  const DevOps := "DevOps-Related Items"
  const Holistic := "Additional Items for Holistic Tracking"

  const HtmlPersonal: seq<Slot> := [
    Slot(Personal, "Employee Name", "employeeName", NotProvided),
    Slot(Personal, "Employee ID", "employeeId", NotProvided),
    Slot(Personal, "Reporting Period", "periodStart", NotProvided),
    Slot(Personal, "Reporting Period", "periodEnd", NotProvided),
    Slot(Personal, "Data Engineering", "dataEngTime", NoPercent),
    Slot(Personal, "Frontend DevOps", "frontendDevOpsTime", NoPercent)
  ]

  const HtmlDataEngineering: seq<Slot> := [
    Slot(DataEngineering, "Data Pipelines Worked On", "dataPipelines", NotProvided),
    Slot(DataEngineering, "Error and Incident Log", "errorIncidentLog", NotProvided),
    Slot(DataEngineering, "Data Quality Checks", "dataQualityChecks", NotProvided),
    Slot(DataEngineering, "Job Performance Metrics", "jobPerformanceMetrics", NotProvided),
    Slot(DataEngineering, "SLA Compliance", "slaCompliance", NotProvided)
  ]

  const HtmlFrontend: seq<Slot> := [
    Slot(Frontend, "Features or Tasks Completed", "featuresCompleted", NotProvided),
    Slot(Frontend, "Performance Metrics", "performanceMetrics", NotProvided),
    Slot(Frontend, "Bug and Error Log", "bugErrorLog", NotProvided),
    Slot(Frontend, "User Interaction Data", "userInteractionData", NotProvided)
  ]

  const HtmlDevOps: seq<Slot> := [
    Slot(DevOps, "Deployment Log", "deploymentLog", NotProvided),
    Slot(DevOps, "Change and Cycle Details", "changeCycleDetails", NotProvided),
    Slot(DevOps, "Incident Response Log", "incidentResponseLog", NotProvided),
    Slot(DevOps, "Infrastructure Metrics", "infrastructureMetrics", NotProvided)
  ]

  const HtmlHolistic: seq<Slot> := [
    Slot(Holistic, "Time Allocation Log", "timeAllocationLog", NotProvided),
    Slot(Holistic, "Self-Assessment and Feedback", "selfAssessment", NotProvided),
    Slot(Holistic, "Supporting Evidence", "supportingEvidence", NotProvided)
  ]

  /** The interpolations of `generateEmailTemplate`, section by section in document order.
      The reporting period's two dates share one caption, and so do the two percentages
      ("Time Allocation"), each under its own sub-caption. */
  const HtmlLayout: seq<Slot> := HtmlPersonal + HtmlDataEngineering + HtmlFrontend + HtmlDevOps + HtmlHolistic

  const TextPersonal: seq<Slot> := [
    Slot(Personal, "Employee Name", "employeeName", NotProvided),
    Slot(Personal, "Employee ID", "employeeId", NotProvided),
    Slot(Personal, "Reporting Period", "periodStart", NotProvided),
    Slot(Personal, "Reporting Period", "periodEnd", NotProvided),
    Slot(Personal, "Time on Data Engineering", "dataEngTime", NoPercent),
    Slot(Personal, "Time on Frontend DevOps", "frontendDevOpsTime", NoPercent)
  ]

  const TextDataEngineering: seq<Slot> := [
    Slot(DataEngineering, "Data Pipelines Worked On", "dataPipelines", NotProvided),
    Slot(DataEngineering, "Error and Incident Log", "errorIncidentLog", NotProvided),
    Slot(DataEngineering, "Data Quality Checks", "dataQualityChecks", NotProvided),
    Slot(DataEngineering, "Job Performance Metrics", "jobPerformanceMetrics", NotProvided),
    Slot(DataEngineering, "SLA Compliance", "slaCompliance", NotProvided)
  ]

  const TextFrontend: seq<Slot> := [
    Slot(Frontend, "Features or Tasks Completed", "featuresCompleted", NotProvided),
    Slot(Frontend, "Performance Metrics", "performanceMetrics", NotProvided),
    Slot(Frontend, "Bug and Error Log", "bugErrorLog", NotProvided),
    Slot(Frontend, "User Interaction Data", "userInteractionData", NotProvided)
  ]

  const TextDevOps: seq<Slot> := [
    Slot(DevOps, "Deployment Log", "deploymentLog", NotProvided),
    Slot(DevOps, "Change and Cycle Details", "changeCycleDetails", NotProvided),
    Slot(DevOps, "Incident Response Log", "incidentResponseLog", NotProvided),
    Slot(DevOps, "Infrastructure Metrics", "infrastructureMetrics", NotProvided)
  ]

  const TextHolistic: seq<Slot> := [
    Slot(Holistic, "Time Allocation Log", "timeAllocationLog", NotProvided),
    Slot(Holistic, "Self-Assessment and Feedback", "selfAssessment", NotProvided),
    Slot(Holistic, "Supporting Evidence", "supportingEvidence", NotProvided)
  ]

  /** The interpolations of `generatePlainTextEmail`, section by section in document
      order; the two dates again share the "Reporting Period" line. */
  const TextLayout: seq<Slot> := TextPersonal + TextDataEngineering + TextFrontend + TextDevOps + TextHolistic

  /** The values a template shows for the request `body`: each slot's field when it is
      truthy, its fallback otherwise. */
  function Render(layout: seq<Slot>, body: Fields): (lines: seq<Line>)
    ensures |lines| == |layout|
    ensures forall i :: 0 <= i < |layout| ==>
              lines[i].section == layout[i].section && lines[i].caption == layout[i].caption
    ensures forall i :: 0 <= i < |layout| ==>
              (Provided(body, layout[i].field) ==> lines[i].value == body[layout[i].field]) &&
              (!Provided(body, layout[i].field) ==> lines[i].value == layout[i].fallback)
  {
    seq(|layout|, i requires 0 <= i < |layout| =>
      Line(layout[i].section, layout[i].caption, Display(body, layout[i].field, layout[i].fallback)))
  }

  /** The request fields a template shows, with their fallbacks, in order. */
  function Shows(layout: seq<Slot>): seq<(string, string)> {
    seq(|layout|, i requires 0 <= i < |layout| => (layout[i].field, layout[i].fallback))
  }

  lemma ShowsAppend(a: seq<Slot>, b: seq<Slot>)
    ensures Shows(a + b) == Shows(a) + Shows(b)
  {
  }

  /** The fallback a field should have: "0" for the two percentages, "Not provided" for
      every other field. */
  function FallbackFor(field: string): string {
    if field == "dataEngTime" || field == "frontendDevOpsTime" then NoPercent else NotProvided
  }

  /** Every shown field of `shows` has the fallback `FallbackFor` gives it. */
  predicate FallbacksFit(shows: seq<(string, string)>) {
    forall i :: 0 <= i < |shows| ==> shows[i].1 == FallbackFor(shows[i].0)
  }

  /** Both templates show the same fields in the same order with the same fallbacks. */
  lemma LayoutsShowSameFields()
    ensures Shows(HtmlLayout) == Shows(TextLayout)
  {
    assert Shows(HtmlPersonal) == Shows(TextPersonal);
    assert HtmlDataEngineering == TextDataEngineering && HtmlFrontend == TextFrontend;
    assert HtmlDevOps == TextDevOps && HtmlHolistic == TextHolistic;
    ShowsAppend(HtmlPersonal, HtmlDataEngineering);
    ShowsAppend(HtmlPersonal + HtmlDataEngineering, HtmlFrontend);
    ShowsAppend(HtmlPersonal + HtmlDataEngineering + HtmlFrontend, HtmlDevOps);
    ShowsAppend(HtmlPersonal + HtmlDataEngineering + HtmlFrontend + HtmlDevOps, HtmlHolistic);
    ShowsAppend(TextPersonal, TextDataEngineering);
    ShowsAppend(TextPersonal + TextDataEngineering, TextFrontend);
    ShowsAppend(TextPersonal + TextDataEngineering + TextFrontend, TextDevOps);
    ShowsAppend(TextPersonal + TextDataEngineering + TextFrontend + TextDevOps, TextHolistic);
  }

  /** The HTML and plain-text renderings show identical values, one for one; only some
      captions differ. */
  lemma RenderingsAgree(body: Fields)
    ensures |Render(HtmlLayout, body)| == |Render(TextLayout, body)| == 22
    ensures forall i :: 0 <= i < 22 ==> Render(HtmlLayout, body)[i].value == Render(TextLayout, body)[i].value
  {
    LayoutsShowSameFields();
    forall i | 0 <= i < 22
      ensures HtmlLayout[i].field == TextLayout[i].field && HtmlLayout[i].fallback == TextLayout[i].fallback
    {
      assert Shows(HtmlLayout)[i] == Shows(TextLayout)[i];
    }
  }

  /** The percentages fall back to "0", every other field to "Not provided", in both
      templates. */
  lemma Fallbacks(layout: seq<Slot>)
    requires layout == HtmlLayout || layout == TextLayout
    ensures forall i :: 0 <= i < |layout| ==> layout[i].fallback == FallbackFor(layout[i].field)
  {
    PersonalFallbacks();
    NarrativeFallbacks();
    LayoutsShowSameFields();
    ShowsAppend(HtmlPersonal, HtmlDataEngineering);
    ShowsAppend(HtmlPersonal + HtmlDataEngineering, HtmlFrontend);
    ShowsAppend(HtmlPersonal + HtmlDataEngineering + HtmlFrontend, HtmlDevOps);
    ShowsAppend(HtmlPersonal + HtmlDataEngineering + HtmlFrontend + HtmlDevOps, HtmlHolistic);
    assert FallbacksFit(Shows(HtmlLayout));
    forall i | 0 <= i < |layout|
      ensures layout[i].fallback == FallbackFor(layout[i].field)
    {
      assert Shows(layout)[i] == Shows(HtmlLayout)[i];
    }
  }

  lemma PersonalFallbacks()
    ensures FallbacksFit(Shows(HtmlPersonal))
  {
  }

  lemma NarrativeFallbacks()
    ensures FallbacksFit(Shows(HtmlDataEngineering)) && FallbacksFit(Shows(HtmlFrontend))
    ensures FallbacksFit(Shows(HtmlDevOps)) && FallbacksFit(Shows(HtmlHolistic))
  {
  }

  /** No rendered value is ever blank. */
  lemma RenderedValuesNonEmpty(layout: seq<Slot>, body: Fields)
    requires layout == HtmlLayout || layout == TextLayout
    ensures forall i :: 0 <= i < |layout| ==> Render(layout, body)[i].value != []
  {
    Fallbacks(layout);
  }

  /** A request that passes the required check shows the employee's name and ID verbatim,
      first, in both renderings. */
  lemma RenderingsShowEmployee(layout: seq<Slot>, body: Fields)
    requires layout == HtmlLayout || layout == TextLayout
    requires Provided(body, "employeeName") && Provided(body, "employeeId")
    ensures Render(layout, body)[0].value == body["employeeName"]
    ensures Render(layout, body)[1].value == body["employeeId"]
  {
    LayoutsShowSameFields();
    assert Shows(HtmlLayout)[0].0 == "employeeName" && Shows(HtmlLayout)[1].0 == "employeeId";
  }

  // The subject line

  /** The mail's subject for the employee `name` with ID `id`. */
  function Subject(name: string, id: string): (s: string)
    ensures SubjectPrefix <= s && s[|s| - 1] == ')'
    ensures |s| == |SubjectPrefix| + |name| + |id| + 3
  {
    SubjectPrefix + name + " (" + id + ")"
  }

  /** The position of the last `c` in `s`. */
  function LastIndexOf(s: string, c: char): (r: Option<nat>)
    ensures r.None? <==> c !in s
    ensures r.Some? ==> r.value < |s| && s[r.value] == c && c !in s[r.value + 1..]
  {
    if s == [] then None
    else if s[|s| - 1] == c then Some(|s| - 1)
    else
      var r := LastIndexOf(s[..|s| - 1], c);
      assert r.Some? ==> s[r.value + 1..] == s[..|s| - 1][r.value + 1..] + [s[|s| - 1]];
      assert r.None? ==> s == s[..|s| - 1] + [s[|s| - 1]];
      r
  }

  /** Reads the name and ID back from a subject line: what lies between the prefix and the
      last " (", and what lies between it and the closing parenthesis. */
  function ParseSubject(s: string): Option<(string, string)> {
    if !(SubjectPrefix <= s) || |s| == |SubjectPrefix| || s[|s| - 1] != ')' then None
    else
      var middle := s[|SubjectPrefix|..|s| - 1];
      match LastIndexOf(middle, '(')
      case None => None
      case Some(k) =>
        if k == 0 || middle[k - 1] != ' ' then None
        else Some((middle[..k - 1], middle[k + 1..]))
  }

  /** The last `c` of `a + [c] + b` is the one after `a` when `b` holds none. */
  lemma {:induction false} LastIndexOfAppend(a: string, c: char, b: string)
    requires c !in b
    ensures LastIndexOf(a + [c] + b, c) == Some(|a|)
  {
    if b != [] {
      var s := a + [c] + b;
      assert s[..|s| - 1] == a + [c] + b[..|b| - 1];
      assert s[|s| - 1] == b[|b| - 1];
      LastIndexOfAppend(a, c, b[..|b| - 1]);
    }
  }

  /** The subject names its employee: an ID with no `(` in it can be read back, and so can
      the name, whatever characters it holds. */
  lemma SubjectRoundTrip(name: string, id: string)
    requires '(' !in id
    ensures ParseSubject(Subject(name, id)) == Some((name, id))
  {
    var s := Subject(name, id);
    var middle := s[|SubjectPrefix|..|s| - 1];
    assert middle == name + [' '] + ['('] + id;
    LastIndexOfAppend(name + [' '], '(', id);
    var k := |name| + 1;
    assert middle[k - 1] == ' ' && middle[..k - 1] == name && middle[k + 1..] == id;
  }

  /** Two reports with different employees get different subjects, as long as the IDs hold
      no `(`. */
  lemma SubjectInjective(name1: string, id1: string, name2: string, id2: string)
    requires '(' !in id1 && '(' !in id2
    requires Subject(name1, id1) == Subject(name2, id2)
    ensures name1 == name2 && id1 == id2
  {
    SubjectRoundTrip(name1, id1);
    SubjectRoundTrip(name2, id2);
  }

  /** An ID the form accepts (letters and digits only) is always read back. */
  lemma AcceptedIdRoundTrip(name: string, id: string)
    requires Matches(LettersAndDigits, id)
    ensures ParseSubject(Subject(name, id)) == Some((name, id))
  {
    assert '(' !in id by {
      assert forall i :: 0 <= i < |id| ==> id[i] != '(';
    }
    SubjectRoundTrip(name, id);
  }

  // The handler

  /** A nodemailer error: its `code` (possibly absent) and its `message`. */
  datatype MailError = MailError(code: Option<string>, message: string)

  /** What `sendMail` settles with. */
  datatype Delivery = Delivered(messageId: string) | Undelivered(error: MailError)

  /** The outcomes of the transport's three awaited steps: `createTransporter`, `verify`
      and `sendMail`. A later step only matters when the earlier ones succeeded. */
  datatype Transport = Transport(setupError: Option<MailError>, verifyError: Option<MailError>, delivery: Delivery)

  /** The options handed to `sendMail`. */
  datatype Mail = Mail(from: Option<string>, to: Option<string>, subject: string, html: seq<Line>, text: seq<Line>)

  /** The JSON body of a response; `error: undefined` is left out of the JSON. */
  datatype Body = Body(success: bool, message: string, messageId: Option<string>, error: Option<string>)

  datatype Response = Response(status: nat, body: Body)

  /** The error the handler catches, if any: that of the first step that fails. */
  function FirstError(t: Transport): (e: Option<MailError>)
    ensures e.None? <==> t.setupError.None? && t.verifyError.None? && t.delivery.Delivered?
  {
    if t.setupError.Some? then t.setupError
    else if t.verifyError.Some? then t.verifyError
    else if t.delivery.Undelivered? then Some(t.delivery.error)
    else None
  }

  predicate Development(env: Fields) {
    "NODE_ENV" in env && env["NODE_ENV"] == "development"
  }

  /** `POST /submit-form` on the request `body`, in the process environment `env` and with
      the transport behaving as `transport`. Besides the response it returns whether a
      transport was created and the mail handed to `sendMail`, if any. */
  method SubmitForm(body: Fields, env: Fields, transport: Transport)
    returns (response: Response, created: bool, mail: Option<Mail>)
    ensures var rejected := !Provided(body, "employeeName") || !Provided(body, "employeeId");
            && (rejected ==> response == Response(400, Body(false, RequiredMessage, None, None)) && !created && mail.None?)
            && (!rejected ==> created && response.status in {200, 500})
            && (mail.Some? <==> !rejected && transport.setupError.None? && transport.verifyError.None?)
            && (response.status == 200 <==> !rejected && FirstError(transport).None?)
    ensures mail.Some? ==>
              && mail.value.subject == Subject(body["employeeName"], body["employeeId"])
              && mail.value.html == Render(HtmlLayout, body)
              && mail.value.text == Render(TextLayout, body)
              && mail.value.from == Lookup(env, "SMTP_USER")
              && mail.value.to == (if Provided(env, "RECIPIENT_EMAIL") then Some(env["RECIPIENT_EMAIL"]) else Lookup(env, "SMTP_USER"))
    ensures response.status == 200 ==>
              response.body == Body(true, SentMessage, Some(transport.delivery.messageId), None)
    ensures response.status == 500 ==>
              var e := FirstError(transport).value;
              && !response.body.success && response.body.messageId.None?
              && (e.code == Some("EAUTH") ==> response.body.message == AuthFailure)
              && (e.code == Some("ECONNECTION") ==> response.body.message == ConnectionFailure)
              && (e.code != Some("EAUTH") && e.code != Some("ECONNECTION") ==> response.body.message == GenericFailure)
              && response.body.error == (if Development(env) then Some(e.message) else None)
  {
    created := false;
    mail := None;
    if !Provided(body, "employeeName") || !Provided(body, "employeeId") {
      return Response(400, Body(false, RequiredMessage, None, None)), created, mail;
    }
    created := true;
    var failure: MailError;
    if transport.setupError.Some? {
      failure := transport.setupError.value;
    } else if transport.verifyError.Some? {
      failure := transport.verifyError.value;
    } else {
      var to := if Provided(env, "RECIPIENT_EMAIL") then Some(env["RECIPIENT_EMAIL"]) else Lookup(env, "SMTP_USER");
      var options := Mail(Lookup(env, "SMTP_USER"), to, Subject(body["employeeName"], body["employeeId"]),
                          Render(HtmlLayout, body), Render(TextLayout, body));
      mail := Some(options);
      match transport.delivery
      case Delivered(messageId) =>
        return Response(200, Body(true, SentMessage, Some(messageId), None)), created, mail;
      case Undelivered(error) =>
        failure := error;
    }
    var errorMessage := GenericFailure;
    if failure.code == Some("EAUTH") {
      errorMessage := AuthFailure;
    } else if failure.code == Some("ECONNECTION") {
      errorMessage := ConnectionFailure;
    }
    var detail := if Development(env) then Some(failure.message) else None;
    response := Response(500, Body(false, errorMessage, None, detail));
  }

  /** The error `createTransporter()` throws before any network step: the script calls a
      `nodemailer.createTransporter` factory that the library does not export, so the call
      is a `TypeError`, which carries no `code`. */
  const MissingFactory := MailError(None, "nodemailer.createTransporter is not a function")

  /** The handler with its transport factory as written: every request that passes the
      required check fails before `verify`, is answered 500 with the generic SMTP message,
      and no mail is built. */
  method SubmitAsWritten(body: Fields, env: Fields, later: Delivery)
    returns (response: Response, mail: Option<Mail>)
    ensures var rejected := !Provided(body, "employeeName") || !Provided(body, "employeeId");
            && (rejected ==> response == Response(400, Body(false, RequiredMessage, None, None)))
            && (!rejected ==> response == Response(500, Body(false, GenericFailure, None,
                                                              if Development(env) then Some(MissingFactory.message) else None)))
            && mail.None?
  {
    var created;
    response, created, mail := SubmitForm(body, env, Transport(Some(MissingFactory), None, later));
  }

  /** A form that passes `validateForm` always passes the server's required check: the
      client's rules require both fields, and a required field is never empty once it
      passes. */
  lemma ValidFormPassesRequiredCheck(labels: map<string, string>, v: map<string, string>)
    requires HasRuledFields(v)
    requires FormValid(labels, v)
    ensures Provided(v, "employeeName") && Provided(v, "employeeId")
  {
    FormValidFieldsPass(labels, v, 0);
    FormValidFieldsPass(labels, v, 1);
    RequiredPassIsNonBlank(labels, 0, v[RuleTable[0].0]);
    RequiredPassIsNonBlank(labels, 1, v[RuleTable[1].0]);
    RuleTableFields();
  }
}
