/** The browser and the server together: a report of the sample employee "Jo" (ID "E1",
    January 2024) with two time allocations, and one submission carried from the form
    controller through the `/submit-form` handler and back. */
module Scenarios {
  import opened Wrappers
  import opened JsText
  import opened FieldRules
  import opened FormCheck
  import opened Controller
  import opened Submission

  /** The form's values hold the sample report, with `frontendDevOpsTime` holding `devOps`;
      the narrative fields may hold anything. */
  predicate IsSample(v: map<string, string>, devOps: string) {
    && HasRuledFields(v)
    && v["employeeName"] == "Jo" && v["employeeId"] == "E1"
    && v["periodStart"] == "2024-01-01" && v["periodEnd"] == "2024-01-31"
    && v["dataEngTime"] == "60" && v["frontendDevOpsTime"] == devOps
  }

  lemma SampleDecimals()
    ensures DecimalString(60) == "60" && DecimalString(50) == "50" && DecimalString(30) == "30"
  {
    assert DecimalString(6) == "6" && DecimalString(5) == "5" && DecimalString(3) == "3";
  }

  /** 60% and 50% add up to more than 100%: the form is rejected, with the total's message
      on `frontendDevOpsTime`, so nothing is ever sent. */
  lemma OverAllocatedReportRejected(labels: map<string, string>, v: map<string, string>)
    requires IsSample(v, "50")
    ensures TotalPercent(v) == 110
    ensures !FormValid(labels, v)
    ensures FormErrors(labels, v)["frontendDevOpsTime"] == TotalError
  {
    SampleDecimals();
    ParseIntDecimal(60);
    ParseIntDecimal(50);
    CrossFieldErrorsIff(labels, v);
  }

  /** The sample dates are valid and in order. */
  lemma SampleDatesInOrder(start: string, end: string)
    requires start == "2024-01-01" && end == "2024-01-31"
    ensures !DatesOutOfOrder(start, end)
  {
    assert start[0..4] == "2024" && start[5..7] == "01" && start[8..10] == "01";
    assert end[0..4] == "2024" && end[5..7] == "01" && end[8..10] == "31";
    assert DecimalValue("01") == 1 && DecimalValue("31") == 31;
    assert IsDateString(start) && IsDateString(end);
    DateOrderIsCalendarOrder(end, start);
  }

  lemma NamePasses(labels: map<string, string>, s: string)
    requires s == "Jo"
    ensures CheckField(labels, "employeeName", s) == Pass
  {
    assert !IsWhitespace(s[0]) && !IsWhitespace(s[1]);
    TrimUnchanged(s);
    EmployeeNameVerdict(labels, s);
  }

  lemma IdPasses(labels: map<string, string>, s: string)
    requires s == "E1"
    ensures CheckField(labels, "employeeId", s) == Pass
  {
    assert IsAsciiLetterOrDigit(s[0]) && IsAsciiLetterOrDigit(s[1]);
    IdVerdictAccepts(labels, s);
  }

  /** A two-character ID made of letters and digits passes. */
  lemma IdVerdictAccepts(labels: map<string, string>, s: string)
    requires |s| == 2 && IsAsciiLetterOrDigit(s[0]) && IsAsciiLetterOrDigit(s[1])
    ensures CheckField(labels, "employeeId", s) == Pass
  {
    var caption := FieldLabel(labels, "employeeId");
    TwoLettersTrimmed(s);
    DecideId(caption, s);
    assert Decide(IdRule, caption, s) == Pass;
    RuledCheck(labels, "employeeId", s, IdRule);
  }

  lemma TwoLettersTrimmed(s: string)
    requires |s| == 2 && IsAsciiLetterOrDigit(s[0]) && IsAsciiLetterOrDigit(s[1])
    ensures Trim(s) == s && Matches(LettersAndDigits, s)
  {
    assert !IsWhitespace(s[0]) && !IsWhitespace(s[1]);
    TrimUnchanged(s);
    forall i | 0 <= i < |s| ensures IsAsciiLetterOrDigit(s[i]) {
      assert i == 0 || i == 1;
    }
  }

  lemma PercentPasses(labels: map<string, string>, name: string, s: string, n: nat)
    requires name == "dataEngTime" || name == "frontendDevOpsTime"
    requires n <= 100 && s == DecimalString(n)
    ensures CheckField(labels, name, s) == Pass
  {
    WholePercentageVerdict(labels, name, n);
  }

  /** Each ruled field of the sample report passes its own check. */
  lemma SampleFieldsPass(labels: map<string, string>, v: map<string, string>)
    requires IsSample(v, "30")
    ensures forall i :: 0 <= i < |RuleTable| ==> CheckField(labels, RuleTable[i].0, v[RuleTable[i].0]) == Pass
  {
    var verdicts := Verdicts(labels, v);
    SampleIdentityPasses(labels, v);
    SamplePeriodPasses(labels, v);
    SamplePercentagesPass(labels, v);
    forall i | 0 <= i < |RuleTable|
      ensures CheckField(labels, RuleTable[i].0, v[RuleTable[i].0]) == Pass
    {
      assert verdicts[i] == CheckField(labels, RuleTable[i].0, v[RuleTable[i].0]);
      assert i == 0 || i == 1 || i == 2 || i == 3 || i == 4 || i == 5;
    }
  }

  lemma SampleIdentityPasses(labels: map<string, string>, v: map<string, string>)
    requires IsSample(v, "30")
    ensures Verdicts(labels, v)[0] == Pass && Verdicts(labels, v)[1] == Pass
  {
    RuleTableFields();
    NamePasses(labels, v["employeeName"]);
    IdPasses(labels, v["employeeId"]);
  }

  lemma SamplePeriodPasses(labels: map<string, string>, v: map<string, string>)
    requires IsSample(v, "30")
    ensures Verdicts(labels, v)[2] == Pass && Verdicts(labels, v)[3] == Pass
  {
    RuleTableFields();
    DateRuleMessagesUnused(labels, "periodStart", v["periodStart"]);
    DateRuleMessagesUnused(labels, "periodEnd", v["periodEnd"]);
    assert !IsWhitespace(v["periodStart"][0]) && !IsWhitespace(v["periodEnd"][0]);
  }

  lemma SamplePercentagesPass(labels: map<string, string>, v: map<string, string>)
    requires IsSample(v, "30")
    ensures Verdicts(labels, v)[4] == Pass && Verdicts(labels, v)[5] == Pass
  {
    RuleTableFields();
    SampleDecimals();
    PercentPasses(labels, "dataEngTime", v["dataEngTime"], 60);
    PercentPasses(labels, "frontendDevOpsTime", v["frontendDevOpsTime"], 30);
  }

  /** With 60% and 30% every field passes and both cross-field checks hold: the form is
      accepted and leaves no marker. */
  lemma BalancedReportAccepted(labels: map<string, string>, v: map<string, string>)
    requires IsSample(v, "30")
    ensures FormValid(labels, v)
    ensures FormErrors(labels, v) == map[]
  {
    SampleFieldsPass(labels, v);
    SampleDatesInOrder(v["periodStart"], v["periodEnd"]);
    SampleTotal(v);
    FormValidIff(labels, v);
    FormValidIffNoErrors(labels, v);
  }

  lemma SampleTotal(v: map<string, string>)
    requires IsSample(v, "30")
    ensures TotalPercent(v) == 90
  {
    SampleDecimals();
    ParseIntDecimal(60);
    ParseIntDecimal(30);
  }

  /** What the browser makes of the server's JSON answer: `result.success` and
      `result.message`. */
  function ReplyTo(response: Response): (reply: Reply)
    ensures Accepted(reply) <==> response.body.success
  {
    Responded(response.body.success, response.body.message)
  }

  /** The rendering opens with the employee's name and ID. */
  predicate ShowsEmployee(lines: seq<Line>, name: string, id: string) {
    |lines| >= 2 && lines[0].value == name && lines[1].value == id
  }

  /** One press of the submit button with the server in the loop: the form's values are
      validated in the browser, posted, handled by `/submit-form` with the transport
      behaving as `transport`, and the answer interpreted by the browser. An invalid form
      reaches no server. A delivered mail clears the draft and resets the form; a failed
      one leaves both and shows the server's classified message. */
  method SubmitThroughServer(form: KpiForm, env: Fields, transport: Transport)
    returns (mail: Option<Mail>)
    requires form.Valid() && form.HasRuledControls()
    modifies form
    ensures form.Valid()
    ensures !FormValid(form.labels, old(form.values)) ==>
              mail.None? && form.values == old(form.values) && form.stored == old(form.stored)
    ensures FormValid(form.labels, old(form.values)) && FirstError(transport).None? ==>
              && form.stored == None && form.values == form.defaults
              && mail.Some?
              && ShowsEmployee(mail.value.html, old(form.values)["employeeName"], old(form.values)["employeeId"])
              && ShowsEmployee(mail.value.text, old(form.values)["employeeName"], old(form.values)["employeeId"])
    ensures FormValid(form.labels, old(form.values)) && FirstError(transport).Some? ==>
              var code := FirstError(transport).value.code;
              && form.stored == old(form.stored) && form.values == old(form.values)
              && form.notice == Some(Notice(
                   if code == Some("EAUTH") then AuthFailure
                   else if code == Some("ECONNECTION") then ConnectionFailure
                   else GenericFailure, "error"))
  {
    mail := None;
    ghost var before := form.values;
    var valid := FormValid(form.labels, form.values);
    if valid {
      ValidFormPassesRequiredCheck(form.labels, form.values);
      var response, created, sent := SubmitForm(form.values, env, transport);
      var request := form.HandleFormSubmit(ReplyTo(response));
      mail := sent;
      if mail.Some? {
        RenderingsShowEmployee(HtmlLayout, before);
        RenderingsShowEmployee(TextLayout, before);
        RenderingsAgree(before);
      }
    } else {
      var request := form.HandleFormSubmit(Responded(false, []));
    }
  }
}
