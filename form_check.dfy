/** What `validateForm` computes from the form's values: the error marker of every field it
    leaves behind and its verdict. The per-field part is `validateField` applied to the rule
    table's fields in order; then come the two cross-field checks (date order, percentage
    total), each of which marks one fixed field. */
module FormCheck {
  import opened Wrappers
  import opened JsText
  import opened FieldRules

  const PeriodEndError := "End date must be after start date"
  const TotalError := "Total percentage cannot exceed 100%"

  /** Field name to the message of its error marker (`.error-message` under its form group). */
  type Markers = map<string, string>

  /** `parseInt(raw) || 0`: NaN (and 0) count as 0. */
  function PercentOrZero(raw: string): int {
    match ParseInt(raw)
    case None => 0
    case Some(n) => n
  }

  /** The sum the percentage-total check compares with 100. */
  function TotalPercent(v: map<string, string>): int
    requires "dataEngTime" in v && "frontendDevOpsTime" in v
  {
    PercentOrZero(v["dataEngTime"]) + PercentOrZero(v["frontendDevOpsTime"])
  }

  /** `startDate >= endDate` on the two `Date` objects, which are always truthy: an
      Invalid Date (an empty or malformed value) compares false with everything. */
  predicate DatesOutOfOrder(start: string, end: string) {
    IsDateString(start) && IsDateString(end) && LexLe(end, start)
  }

  /** How `validateField` leaves a ruled field's marker: cleared, then set to the one message
      on failure (`showFieldError` replaces an earlier one). */
  function MarkVerdict(errors: Markers, name: string, verdict: Verdict): Markers {
    match verdict
    case Pass => errors - {name}
    case Fail(m) => (errors - {name})[name := m]
  }

  /** The effect of `validateField` on the markers; a field without a rule is left alone. */
  function MarkField(errors: Markers, labels: map<string, string>, name: string, raw: string): Markers {
    if name !in RuledNames then errors else MarkVerdict(errors, name, CheckField(labels, name, raw))
  }

  predicate HasRuledFields(v: map<string, string>) {
    RuledNames <= v.Keys
  }

  /** The verdict of every field of the rule table, in table order. */
  function Verdicts(labels: map<string, string>, v: map<string, string>): (r: seq<Verdict>)
    requires HasRuledFields(v)
    ensures |r| == |RuleTable|
  {
    seq(|RuleTable|, i requires 0 <= i < |RuleTable| => CheckField(labels, RuleTable[i].0, v[RuleTable[i].0]))
  }

  /** The markers after `validateField` ran on the first `k` fields of the rule table,
      starting from none (`clearAllErrors`). */
  function FieldFailures(k: nat, verdicts: seq<Verdict>): Markers
    requires k <= |RuleTable| == |verdicts|
  {
    if k == 0 then map[]
    else MarkVerdict(FieldFailures(k - 1, verdicts), RuleTable[k - 1].0, verdicts[k - 1])
  }

  /** What `validateForm` does with the outcome of its parts: the markers of the per-field
      pass, then the date-order marker on `periodEnd`, then the total marker on
      `frontendDevOpsTime`, each `showFieldError` replacing what the field had. */
  function Aggregate(verdicts: seq<Verdict>, datesOutOfOrder: bool, total: int): Markers
    requires |verdicts| == |RuleTable|
  {
    var fields := FieldFailures(|RuleTable|, verdicts);
    var dated := if datesOutOfOrder then fields["periodEnd" := PeriodEndError] else fields;
    if total > 100 then dated["frontendDevOpsTime" := TotalError] else dated
  }

  /** The value `validateForm` returns for those outcomes: `isValid` starts true and is
      cleared by every failing field and by each failing cross-field check. */
  predicate AggregateValid(verdicts: seq<Verdict>, datesOutOfOrder: bool, total: int)
    requires |verdicts| == |RuleTable|
  {
    (forall i :: 0 <= i < |verdicts| ==> verdicts[i] == Pass) && !datesOutOfOrder && total <= 100
  }

  /** `isValid` after the per-field pass over the first `k` fields: none of them failed. */
  predicate AllPass(verdicts: seq<Verdict>, k: nat)
    requires k <= |verdicts|
  {
    k == 0 || (AllPass(verdicts, k - 1) && verdicts[k - 1] == Pass)
  }

  lemma {:induction false} AllPassIff(verdicts: seq<Verdict>, k: nat)
    requires k <= |verdicts|
    ensures AllPass(verdicts, k) <==> forall j :: 0 <= j < k ==> verdicts[j] == Pass
  {
    if k > 0 {
      AllPassIff(verdicts, k - 1);
    }
  }

  /** One more field of the per-field pass: `validateField` on the `i`-th field of the
      table takes the markers and the verdict of the first `i` fields to those of the
      first `i + 1`. */
  lemma FieldFailuresStep(labels: map<string, string>, v: map<string, string>, i: nat, errors: Markers)
    requires HasRuledFields(v) && i < |RuleTable|
    requires errors == FieldFailures(i, Verdicts(labels, v))
    ensures RuleTable[i].0 in RuledNames
    ensures MarkField(errors, labels, RuleTable[i].0, v[RuleTable[i].0]) == FieldFailures(i + 1, Verdicts(labels, v))
    ensures Verdicts(labels, v)[i] == CheckField(labels, RuleTable[i].0, v[RuleTable[i].0])
  {
    RuleTableNamesRuled(i);
    assert Verdicts(labels, v)[i] == CheckField(labels, RuleTable[i].0, v[RuleTable[i].0]);
  }

  /** The markers `validateForm` leaves on the form's values `v`. */
  function FormErrors(labels: map<string, string>, v: map<string, string>): Markers
    requires HasRuledFields(v)
  {
    Aggregate(Verdicts(labels, v), DatesOutOfOrder(v["periodStart"], v["periodEnd"]), TotalPercent(v))
  }

  /** The value `validateForm` returns on the form's values `v`. */
  predicate FormValid(labels: map<string, string>, v: map<string, string>)
    requires HasRuledFields(v)
  {
    AggregateValid(Verdicts(labels, v), DatesOutOfOrder(v["periodStart"], v["periodEnd"]), TotalPercent(v))
  }

  /** After the first `k` fields, exactly the failing ones among them carry a marker, each
      with its own message. */
  lemma {:induction false} FieldFailuresExact(k: nat, verdicts: seq<Verdict>)
    requires k <= |RuleTable| == |verdicts|
    ensures forall i :: 0 <= i < k ==>
              (RuleTable[i].0 in FieldFailures(k, verdicts) <==> verdicts[i].Fail?) &&
              (verdicts[i].Fail? ==> FieldFailures(k, verdicts)[RuleTable[i].0] == verdicts[i].message)
    ensures forall n :: n in FieldFailures(k, verdicts) ==> exists i :: 0 <= i < k && RuleTable[i].0 == n
  {
    RuleTableDistinct();
    if k > 0 {
      FieldFailuresExact(k - 1, verdicts);
    }
  }

  /** `validateForm` returns true exactly when it leaves no error marker. */
  lemma AggregateValidIffNoMarkers(verdicts: seq<Verdict>, datesOutOfOrder: bool, total: int)
    requires |verdicts| == |RuleTable|
    ensures AggregateValid(verdicts, datesOutOfOrder, total) <==> Aggregate(verdicts, datesOutOfOrder, total) == map[]
  {
    var fields := FieldFailures(|RuleTable|, verdicts);
    FieldFailuresExact(|RuleTable|, verdicts);
    if forall i :: 0 <= i < |verdicts| ==> verdicts[i] == Pass {
      assert fields == map[];
      var errors := Aggregate(verdicts, datesOutOfOrder, total);
      assert datesOutOfOrder ==> "periodEnd" in errors;
      assert total > 100 ==> "frontendDevOpsTime" in errors;
    } else {
      var i :| 0 <= i < |verdicts| && verdicts[i] != Pass;
      assert RuleTable[i].0 in fields;
      assert RuleTable[i].0 in Aggregate(verdicts, datesOutOfOrder, total);
    }
  }

  lemma FormValidIffNoErrors(labels: map<string, string>, v: map<string, string>)
    requires HasRuledFields(v)
    ensures FormValid(labels, v) <==> FormErrors(labels, v) == map[]
  {
    AggregateValidIffNoMarkers(Verdicts(labels, v), DatesOutOfOrder(v["periodStart"], v["periodEnd"]), TotalPercent(v));
  }

  /** `validateForm` returns true exactly when every ruled field passes its own check, the
      dates are not out of order and the percentage total is at most 100. */
  lemma FormValidIff(labels: map<string, string>, v: map<string, string>)
    requires HasRuledFields(v)
    ensures FormValid(labels, v) <==>
              && (forall i :: 0 <= i < |RuleTable| ==> CheckField(labels, RuleTable[i].0, v[RuleTable[i].0]) == Pass)
              && !DatesOutOfOrder(v["periodStart"], v["periodEnd"])
              && TotalPercent(v) <= 100
  {
    var verdicts := Verdicts(labels, v);
    assert forall i :: 0 <= i < |RuleTable| ==> verdicts[i] == CheckField(labels, RuleTable[i].0, v[RuleTable[i].0]);
  }

  /** A valid form passes every field's own check. */
  lemma FormValidFieldsPass(labels: map<string, string>, v: map<string, string>, i: nat)
    requires HasRuledFields(v) && FormValid(labels, v)
    requires i < |RuleTable|
    ensures CheckField(labels, RuleTable[i].0, v[RuleTable[i].0]) == Pass
  {
    assert Verdicts(labels, v)[i] == Pass;
  }

  /** The markers of `validateForm` in its three phases: those of the per-field pass, then
      the date-order marker, then the total marker, each set only when its check fails. */
  lemma FormErrorsPhases(labels: map<string, string>, v: map<string, string>, fields: Markers)
    requires HasRuledFields(v)
    requires fields == FieldFailures(|RuleTable|, Verdicts(labels, v))
    ensures var dated := if DatesOutOfOrder(v["periodStart"], v["periodEnd"]) then fields["periodEnd" := PeriodEndError] else fields;
            FormErrors(labels, v) ==
              if PercentOrZero(v["dataEngTime"]) + PercentOrZero(v["frontendDevOpsTime"]) > 100
              then dated["frontendDevOpsTime" := TotalError] else dated
  {
    var verdicts := Verdicts(labels, v);
    var total := PercentOrZero(v["dataEngTime"]) + PercentOrZero(v["frontendDevOpsTime"]);
    assert TotalPercent(v) == total;
    AggregatePhases(verdicts, DatesOutOfOrder(v["periodStart"], v["periodEnd"]), total, fields);
  }

  lemma AggregatePhases(verdicts: seq<Verdict>, datesOutOfOrder: bool, total: int, fields: Markers)
    requires |verdicts| == |RuleTable|
    requires fields == FieldFailures(|RuleTable|, verdicts)
    ensures var dated := if datesOutOfOrder then fields["periodEnd" := PeriodEndError] else fields;
            Aggregate(verdicts, datesOutOfOrder, total) == if total > 100 then dated["frontendDevOpsTime" := TotalError] else dated
  {
  }

  /** The verdict of `validateForm` in its three phases: true exactly when none failed. */
  lemma {:induction false} FormValidPhases(labels: map<string, string>, v: map<string, string>, fieldsPass: bool)
    requires HasRuledFields(v)
    requires fieldsPass == AllPass(Verdicts(labels, v), |RuleTable|)
    ensures FormValid(labels, v) ==
              (fieldsPass && !DatesOutOfOrder(v["periodStart"], v["periodEnd"]) &&
               PercentOrZero(v["dataEngTime"]) + PercentOrZero(v["frontendDevOpsTime"]) <= 100)
  {
    AllPassIff(Verdicts(labels, v), |RuleTable|);
  }

  /** Every failing field gets its marker, not only the first. A field's own message stays
      unless a cross-field check overwrote it; the cross-field checks mark no other field. */
  lemma {:induction false} AggregateMarkers(verdicts: seq<Verdict>, datesOutOfOrder: bool, total: int)
    requires |verdicts| == |RuleTable|
    ensures var errors := Aggregate(verdicts, datesOutOfOrder, total);
            && (forall i :: 0 <= i < |RuleTable| && verdicts[i].Fail? ==> RuleTable[i].0 in errors)
            && (forall i :: 0 <= i < |RuleTable| && verdicts[i].Fail? && RuleTable[i].0 != "periodEnd" && RuleTable[i].0 != "frontendDevOpsTime" ==>
                  errors[RuleTable[i].0] == verdicts[i].message)
            && (verdicts[3].Fail? && !datesOutOfOrder ==> errors[RuleTable[3].0] == verdicts[3].message)
            && (verdicts[5].Fail? && total <= 100 ==> errors[RuleTable[5].0] == verdicts[5].message)
            && errors.Keys == FieldFailures(|RuleTable|, verdicts).Keys
                              + (if datesOutOfOrder then {"periodEnd"} else {})
                              + (if total > 100 then {"frontendDevOpsTime"} else {})
  {
    FieldFailuresExact(|RuleTable|, verdicts);
  }

  /** The total marker sits on `frontendDevOpsTime` exactly when the total exceeds 100, and
      the date-order marker on `periodEnd` exactly when the dates are out of order, as long
      as those fields' own failures never use these two messages. */
  lemma {:induction false} AggregateCrossMarkers(verdicts: seq<Verdict>, datesOutOfOrder: bool, total: int)
    requires |verdicts| == |RuleTable|
    requires verdicts[3] != Fail(PeriodEndError) && verdicts[5] != Fail(TotalError)
    ensures var errors := Aggregate(verdicts, datesOutOfOrder, total);
            && (("frontendDevOpsTime" in errors && errors["frontendDevOpsTime"] == TotalError) <==> total > 100)
            && (("periodEnd" in errors && errors["periodEnd"] == PeriodEndError) <==> datesOutOfOrder)
  {
    FieldFailuresExact(|RuleTable|, verdicts);
    assert RuleTable[3].0 == "periodEnd" && RuleTable[5].0 == "frontendDevOpsTime";
  }

  /** The total-percentage message sits on `frontendDevOpsTime` exactly when the
      `parseInt(...) || 0` sum exceeds 100, whatever the field's own verdict; the date-order
      message sits on `periodEnd` exactly when both dates are valid and the start is not
      before the end. */
  lemma CrossFieldErrorsIff(labels: map<string, string>, v: map<string, string>)
    requires HasRuledFields(v)
    ensures var errors := FormErrors(labels, v);
            && (("frontendDevOpsTime" in errors && errors["frontendDevOpsTime"] == TotalError) <==> TotalPercent(v) > 100)
            && (("periodEnd" in errors && errors["periodEnd"] == PeriodEndError) <==> DatesOutOfOrder(v["periodStart"], v["periodEnd"]))
  {
    var verdicts := Verdicts(labels, v);
    RuleTableFields();
    assert verdicts[3] == CheckField(labels, "periodEnd", v["periodEnd"]);
    assert verdicts[5] == CheckField(labels, "frontendDevOpsTime", v["frontendDevOpsTime"]);
    PercentVerdictMessages(labels, "frontendDevOpsTime", v["frontendDevOpsTime"]);
    DateRuleMessagesUnused(labels, "periodEnd", v["periodEnd"]);
    RequiredIsNotOrderMessage(FieldLabel(labels, "periodEnd"));
    AggregateCrossMarkers(verdicts, DatesOutOfOrder(v["periodStart"], v["periodEnd"]), TotalPercent(v));
  }

  /** A "... is required" message is never the date-order message. */
  lemma RequiredIsNotOrderMessage(caption: string)
    ensures caption + RequiredSuffix != PeriodEndError
  {
    var m := caption + RequiredSuffix;
    assert m[|m| - 1] == 'd' && PeriodEndError[|PeriodEndError| - 1] == 'e';
  }

  /** A percentage field that holds no decimal digit (empty, white space, text) counts as 0
      in the total. */
  lemma NonNumericPercentCountsZero(raw: string)
    requires forall i :: 0 <= i < |raw| ==> !IsDigit(raw[i])
    ensures PercentOrZero(raw) == 0
  {
    ParseIntNeedsADigit(raw);
  }

  /** The order check fires exactly when both dates are valid and the start is on or after
      the end in the calendar. */
  lemma DatesOutOfOrderIff(start: string, end: string)
    ensures DatesOutOfOrder(start, end) <==>
              IsDateString(start) && IsDateString(end) && DayKey(end) <= DayKey(start)
  {
    if IsDateString(start) && IsDateString(end) {
      DateOrderIsCalendarOrder(end, start);
    }
  }

  /** The range check reads a percentage with `parseFloat` and the total with `parseInt`:
      two halves of 50.5 each pass, and count 50 + 50 = 100 in the total, so a total of
      101% is not flagged. */
  lemma FractionalPercentagesUndercount(labels: map<string, string>, v: map<string, string>)
    requires "dataEngTime" in v && "frontendDevOpsTime" in v
    requires v["dataEngTime"] == "50.5" && v["frontendDevOpsTime"] == "50.5"
    ensures CheckField(labels, "dataEngTime", v["dataEngTime"]) == Pass
    ensures CheckField(labels, "frontendDevOpsTime", v["frontendDevOpsTime"]) == Pass
    ensures TotalPercent(v) == 100
  {
    HalfPercentPasses(labels, "dataEngTime", v["dataEngTime"]);
    HalfPercentPasses(labels, "frontendDevOpsTime", v["frontendDevOpsTime"]);
    HalfPercentsTotal(v["dataEngTime"], v["frontendDevOpsTime"]);
  }

  lemma HalfPercentsTotal(a: string, b: string)
    requires a == "50.5" && b == "50.5"
    ensures PercentOrZero(a) + PercentOrZero(b) == 100
  {
    ParseHalfPercent(a);
  }

  /** Two valid dates with the start strictly before the end never raise the order error. */
  lemma OrderedDatesPass(start: string, end: string)
    requires IsDateString(start) && IsDateString(end)
    requires LexLe(start, end) && start != end
    ensures !DatesOutOfOrder(start, end)
  {
    if LexLe(end, start) {
      LexLeAntisymmetric(start, end);
    }
  }

  /** Two valid dates with the start not before the end always raise it. */
  lemma UnorderedDatesFail(start: string, end: string)
    requires IsDateString(start) && IsDateString(end)
    requires !(LexLe(start, end) && start != end)
    ensures DatesOutOfOrder(start, end)
  {
    LexLeTotal(start, end);
  }
}
