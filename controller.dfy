/** The browser side: a `KpiForm` holds what the page's script reads and changes — the
    values of the form's controls, the error markers under them, the single draft kept in
    local storage under the key `kpiFormDraft`, the submit button's loading/disabled state,
    and the last notification shown — and its methods are the script's handlers. */
module Controller {
  import opened Wrappers
  import opened JsText
  import opened FieldRules
  import opened FormCheck

  const FixErrorsMessage := "Please fix the errors before submitting"
  const SubmittedMessage := "Form submitted and email sent successfully!"
  const SubmissionFailed := "Submission failed"
  const SubmissionFailedRetry := "Submission failed. Please try again."
  const DraftSavedMessage := "Draft saved successfully!"
  const DraftLoadedMessage := "Draft data loaded"

  /** What `localStorage.getItem('kpiFormDraft')` holds when the key is set: a JSON object of
      field values, or text that `JSON.parse` (or `Object.entries`) rejects, or the empty
      string, which is falsy and never parsed. */
  datatype Stored = Draft(data: map<string, string>) | Malformed

  /** A notification: its message and its type (`success`, `error`, `warning`, `info`). */
  datatype Notice = Notice(message: string, kind: string)

  /** What the submission's `fetch` and `response.json()` gave: the server's `success` and
      `message` (an absent message is the empty string, both being falsy), or an exception
      with its `message` (network failure, a body that is not JSON). */
  datatype Reply = Responded(success: bool, message: string) | Threw(message: string)

  predicate Accepted(reply: Reply) {
    reply.Responded? && reply.success
  }

  /** The message the catch block shows for a submission that did not succeed: the
      server's message or 'Submission failed' (thrown as an Error), or the exception's own
      message or the generic retry text. */
  function FailureMessage(reply: Reply): (m: string)
    requires !Accepted(reply)
    ensures m != []
    ensures reply.message != [] ==> m == reply.message
    ensures reply.Responded? && reply.message == [] ==> m == SubmissionFailed
    ensures reply.Threw? && reply.message == [] ==> m == SubmissionFailedRetry
  {
    match reply
    case Responded(_, message) => if message != [] then message else SubmissionFailed
    case Threw(message) => if message != [] then message else SubmissionFailedRetry
  }

  /** `getNotificationIcon`: one icon per known notification type, `info-circle` for any
      other. */
  function NotificationIcon(kind: string): (icon: string)
    ensures icon in {"check-circle", "exclamation-circle", "exclamation-triangle", "info-circle"}
    ensures icon == "info-circle" <==> kind !in {"success", "error", "warning"}
  {
    if kind == "success" then "check-circle"
    else if kind == "error" then "exclamation-circle"
    else if kind == "warning" then "exclamation-triangle"
    else "info-circle"
  }

  /** The three named types get three different icons. */
  lemma NotificationIconsDistinct()
    ensures NotificationIcon("success") != NotificationIcon("error")
    ensures NotificationIcon("success") != NotificationIcon("warning")
    ensures NotificationIcon("error") != NotificationIcon("warning")
  {
  }

  /** `autoSave`'s guard: some control holds a value that is not all white space. */
  predicate HasData(v: map<string, string>) {
    exists k :: k in v && !AllWhitespace(v[k])
  }

  /** The form's values after `loadDraftData` copied `data` into them: every control named
      in the draft takes the draft's value, draft keys that are no control are dropped, and
      every other control keeps its value. */
  function Restore(v: map<string, string>, data: map<string, string>): map<string, string> {
    map k | k in v :: if k in data then data[k] else v[k]
  }

  /** Loading touches the controls the draft names and nothing else. */
  lemma RestoreFrame(v: map<string, string>, data: map<string, string>, k: string)
    ensures Restore(v, data).Keys == v.Keys
    ensures k in v && k in data ==> Restore(v, data)[k] == data[k]
    ensures k in v && k !in data ==> Restore(v, data)[k] == v[k]
  {
  }

  /** A draft saved from a form loads back into a form with the same controls as exactly
      the saved values, whatever the controls held before. */
  lemma DraftRoundTrip(before: map<string, string>, saved: map<string, string>)
    requires before.Keys == saved.Keys
    ensures Restore(before, saved) == saved
  {
  }

  /** A draft saved from a form with more controls than the loading one loads back as the
      saved values of the controls that still exist. */
  lemma DraftRoundTripDropsUnknown(before: map<string, string>, saved: map<string, string>)
    requires before.Keys <= saved.Keys
    ensures Restore(before, saved) == map k | k in before :: saved[k]
  {
  }

  predicate Distinct(names: seq<string>) {
    forall i, j :: 0 <= i < j < |names| ==> names[i] != names[j]
  }

  function Controls(names: seq<string>): set<string> {
    set n | n in names
  }

  class KpiForm {
    /** The names of the form's controls, in document order. */
    const names: seq<string>
    /** The value each control returns to on `form.reset()`. */
    const defaults: map<string, string>
    /** The text of the `<label>` of each control that has one. */
    const labels: map<string, string>

    var values: map<string, string>
    var errors: Markers
    /** `localStorage['kpiFormDraft']`; `None` when the key is not set. */
    var stored: Option<Stored>
    /** The submit button's `loading` class and `disabled` flag. */
    var busy: bool
    var notice: Option<Notice>

    /** The fixed shape of the form: distinct control names, each with a default. */
    ghost predicate WellFormed() {
      && Distinct(names)
      && defaults.Keys == Controls(names)
    }

    /** The form has a control for every field the rule table names. */
    ghost predicate HasRuledControls() {
      RuledNames <= defaults.Keys
    }

    /** Every control has a value and markers sit only under controls. */
    ghost predicate Filled()
      reads this
    {
      && WellFormed()
      && values.Keys == defaults.Keys
      && errors.Keys <= defaults.Keys
    }

    /** The state between two handlers: the form is filled in and the submit button is
        enabled. Every handler ends in this state, so the button is never left busy. */
    ghost predicate Valid()
      reads this
    {
      Filled() && !busy
    }

    /** The page as loaded, before `loadDraftData` runs: every control at its default value,
        no marker, no notification, the button enabled, and whatever local storage held. */
    constructor (names: seq<string>, defaults: map<string, string>, labels: map<string, string>, stored: Option<Stored>)
      requires Distinct(names) && defaults.Keys == Controls(names) && RuledNames <= Controls(names)
      ensures Valid() && HasRuledControls()
      ensures this.names == names && this.defaults == defaults && this.labels == labels
      ensures values == defaults && errors == map[] && this.stored == stored && !busy && notice == None
    {
      this.names := names;
      this.defaults := defaults;
      this.labels := labels;
      values := defaults;
      errors := map[];
      this.stored := stored;
      busy := false;
      notice := None;
    }

    /** `showFieldError`: the field carries exactly the one message `message`, replacing any
        earlier one; no other marker changes. */
    method ShowFieldError(name: string, message: string)
      requires Valid() && name in values
      modifies this`errors
      ensures Valid()
      ensures errors == old(errors)[name := message]
    {
      errors := errors[name := message];
    }

    /** `clearFieldError`: only this field's marker goes. */
    method ClearFieldError(name: string)
      requires Valid() && name in values
      modifies this`errors
      ensures Valid()
      ensures errors == old(errors) - {name}
    {
      errors := errors - {name};
    }

    /** `clearAllErrors`: no marker is left. */
    method ClearAllErrors()
      requires Valid()
      modifies this`errors
      ensures Valid()
      ensures errors == map[]
    {
      errors := map[];
    }

    /** `clearErrors`, the handler of a control's `input` event: the edited control loses its
        marker. */
    method ClearErrors(name: string)
      requires Valid() && name in values
      modifies this`errors
      ensures Valid()
      ensures errors == old(errors) - {name}
    {
      ClearFieldError(name);
    }

    /** `validateField` on the control `name` (also the handler of its `blur` event). A
        field with no rule passes and keeps its marker; a ruled one loses its marker and,
        when it fails, gets the one message of its first failing check. */
    method ValidateField(name: string) returns (ok: bool)
      requires Valid() && name in values
      modifies this`errors
      ensures Valid()
      ensures ok <==> CheckField(labels, name, values[name]) == Pass
      ensures errors == MarkField(old(errors), labels, name, values[name])
    {
      var rule := RuleFor(name);
      if rule.None? {
        return true;
      }
      var verdict := Decide(rule.value, FieldLabel(labels, name), Trim(values[name]));
      assert verdict == CheckField(labels, name, values[name]);
      ShowVerdict(name, verdict);
      ok := verdict.Pass?;
    }

    /** The marking half of `validateField`: the field's marker is cleared, then set to the
        verdict's message when it is a failure. */
    method ShowVerdict(name: string, verdict: Verdict)
      requires Valid() && name in values
      modifies this`errors
      ensures Valid()
      ensures errors == MarkVerdict(old(errors), name, verdict)
    {
      ClearFieldError(name);
      if verdict.Fail? {
        ShowFieldError(name, verdict.message);
      }
    }

    /** The first half of `validateForm`: every marker is cleared, then `validateField`
        runs on each field of the rule table in turn, without stopping at a failure. */
    method ValidateFields() returns (allPass: bool)
      requires Valid() && HasRuledControls()
      modifies this`errors
      ensures Valid()
      ensures errors == FieldFailures(|RuleTable|, Verdicts(labels, values))
      ensures allPass == AllPass(Verdicts(labels, values), |RuleTable|)
    {
      allPass := true;
      ClearAllErrors();
      ghost var verdicts := Verdicts(labels, values);
      var i := 0;
      while i < |RuleTable|
        invariant 0 <= i <= |RuleTable|
        invariant Valid() && values == old(values)
        invariant errors == FieldFailures(i, verdicts)
        invariant allPass == AllPass(verdicts, i)
      {
        var ok := ValidateTableField(i, verdicts);
        if !ok {
          allPass := false;
        }
        i := i + 1;
      }
    }

    /** One turn of the loop of `validateForm`: `validateField` on the `i`-th field of the
        rule table adds that field's marker to those of the fields before it. */
    method ValidateTableField(i: nat, ghost verdicts: seq<Verdict>) returns (ok: bool)
      requires Valid() && HasRuledControls() && i < |RuleTable|
      requires verdicts == Verdicts(labels, values)
      requires errors == FieldFailures(i, verdicts)
      modifies this`errors
      ensures Valid()
      ensures errors == FieldFailures(i + 1, verdicts)
      ensures ok == (verdicts[i] == Pass)
    {
      FieldFailuresStep(labels, values, i, errors);
      ok := ValidateField(RuleTable[i].0);
    }

    /** `validateForm`: validates every ruled field without stopping at the first failure,
        then checks the date order and the percentage total. The markers it leaves and the
        verdict are those of the form's values, and it returns true exactly when it leaves
        no marker. */
    method ValidateForm() returns (isValid: bool)
      requires Valid() && HasRuledControls()
      modifies this`errors
      ensures Valid()
      ensures isValid == FormValid(labels, values)
      ensures errors == FormErrors(labels, values)
      ensures isValid <==> errors == map[]
    {
      isValid := ValidateFields();
      FormErrorsPhases(labels, values, errors);
      FormValidPhases(labels, values, isValid);
      if DatesOutOfOrder(values["periodStart"], values["periodEnd"]) {
        ShowFieldError("periodEnd", PeriodEndError);
        isValid := false;
      }
      var dataEngTime := PercentOrZero(values["dataEngTime"]);
      var frontendDevOpsTime := PercentOrZero(values["frontendDevOpsTime"]);
      if dataEngTime + frontendDevOpsTime > 100 {
        ShowFieldError("frontendDevOpsTime", TotalError);
        isValid := false;
      }
      FormValidIffNoErrors(labels, values);
    }

    /** The loop that turns `new FormData(form)` into a plain object: one entry per control,
        with its current value. */
    method CollectFormData() returns (record: map<string, string>)
      requires Filled()
      ensures record == values
    {
      record := map[];
      var i := 0;
      while i < |names|
        invariant 0 <= i <= |names|
        invariant forall j :: 0 <= j < i ==> names[j] in record
        invariant forall n :: n in record ==> n in values && record[n] == values[n]
      {
        record := record[names[i] := values[names[i]]];
        i := i + 1;
      }
      assert forall n :: n in values ==> n in record by {
        forall n | n in values
          ensures n in record
        {
          var j :| 0 <= j < |names| && names[j] == n;
        }
      }
    }

    /** `autoSave`'s scan: stops at the first control whose trimmed value is not empty. */
    method ScanHasData() returns (hasData: bool)
      requires Valid()
      ensures hasData == HasData(values)
    {
      hasData := false;
      var i := 0;
      while i < |names|
        invariant 0 <= i <= |names|
        invariant forall j :: 0 <= j < i ==> AllWhitespace(values[names[j]])
      {
        if Trim(values[names[i]]) != [] {
          hasData := true;
          break;
        }
        i := i + 1;
      }
    }

    /** `saveDraft`: the draft becomes a snapshot of every control's value, overwriting any
        earlier one, and a success notification is shown. */
    method SaveDraft()
      requires Valid()
      modifies this`stored, this`notice
      ensures Valid()
      ensures stored == Some(Draft(values))
      ensures notice == Some(Notice(DraftSavedMessage, "success"))
    {
      var draftData := CollectFormData();
      stored := Some(Draft(draftData));
      notice := Some(Notice(DraftSavedMessage, "success"));
    }

    /** `autoSave`: the same snapshot as `saveDraft`, written only when some control holds a
        non-blank value. When every control is blank the stored draft is left as it was, so a
        stale non-empty draft survives a form the user emptied. */
    method AutoSave()
      requires Valid()
      modifies this`stored
      ensures Valid()
      ensures stored == if HasData(values) then Some(Draft(values)) else old(stored)
    {
      var hasData := ScanHasData();
      if hasData {
        var draftData := CollectFormData();
        stored := Some(Draft(draftData));
      }
    }

    /** `loadDraftData`: a well-formed draft is copied into the controls it names (keys that
        are no control are skipped) and an info notification is shown; when there is no
        draft or it is malformed nothing changes. */
    method LoadDraftData()
      requires Valid()
      modifies this`values, this`notice
      ensures Valid()
      ensures old(stored).Some? && old(stored).value.Draft? ==>
                values == Restore(old(values), old(stored).value.data) &&
                notice == Some(Notice(DraftLoadedMessage, "info"))
      ensures !(old(stored).Some? && old(stored).value.Draft?) ==>
                values == old(values) && notice == old(notice)
    {
      if stored.Some? && stored.value.Draft? {
        var data := stored.value.data;
        var restored := values;
        var remaining := data.Keys;
        while remaining != {}
          invariant remaining <= data.Keys
          invariant restored.Keys == values.Keys
          invariant forall k :: k in restored ==> restored[k] == if k in data && k !in remaining then data[k] else values[k]
          decreases remaining
        {
          var key :| key in remaining;
          if key in restored {
            restored := restored[key := data[key]];
          }
          remaining := remaining - {key};
        }
        assert restored == Restore(values, data);
        values := restored;
        notice := Some(Notice(DraftLoadedMessage, "info"));
      }
    }

    /** The sending half of `handleFormSubmit`, reached with a valid form: the button is
        disabled while the form's values are posted, then the draft is removed and the form
        reset on success, or the failure's message shown with the draft and values kept;
        the `finally` block enables the button again. */
    method Send(reply: Reply) returns (request: map<string, string>)
      requires Valid()
      modifies this`values, this`stored, this`busy, this`notice
      ensures Valid()
      ensures request == old(values)
      ensures Accepted(reply) ==>
                stored == None && values == defaults && notice == Some(Notice(SubmittedMessage, "success"))
      ensures !Accepted(reply) ==>
                stored == old(stored) && values == old(values) && notice == Some(Notice(FailureMessage(reply), "error"))
    {
      busy := true;
      request := CollectFormData();
      if Accepted(reply) {
        stored := None;
        values := defaults;
        notice := Some(Notice(SubmittedMessage, "success"));
      } else {
        notice := Some(Notice(FailureMessage(reply), "error"));
      }
      busy := false;
    }

    /** `handleFormSubmit`, with the server's answer `reply` as an input. An invalid form
        sends nothing and changes nothing but the markers and the notification. A valid
        form is sent as it stands; on success the draft is removed and the form reset, on
        any failure the draft and the values are untouched and the notification carries
        the failure's message. The button is enabled again on every exit. */
    method HandleFormSubmit(reply: Reply) returns (request: Option<map<string, string>>)
      requires Valid() && HasRuledControls()
      modifies this`errors, this`values, this`stored, this`busy, this`notice
      ensures Valid()
      ensures errors == FormErrors(labels, old(values))
      ensures request == if FormValid(labels, old(values)) then Some(old(values)) else None
      ensures request.None? ==>
                values == old(values) && stored == old(stored) &&
                notice == Some(Notice(FixErrorsMessage, "error"))
      ensures request.Some? && Accepted(reply) ==>
                stored == None && values == defaults && notice == Some(Notice(SubmittedMessage, "success"))
      ensures request.Some? && !Accepted(reply) ==>
                stored == old(stored) && values == old(values) && notice == Some(Notice(FailureMessage(reply), "error"))
    {
      var isValid := ValidateForm();
      if !isValid {
        notice := Some(Notice(FixErrorsMessage, "error"));
        return None;
      }
      var sent := Send(reply);
      request := Some(sent);
    }
  }
}
