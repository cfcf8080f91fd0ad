/** The form's static rule table and the decision `validateField` takes for one field: the
    checks required, pattern, minimum length, is-a-number, minimum and maximum, applied in that
    order to the trimmed value, the first that fails choosing the one message. */
module FieldRules {
  import opened Wrappers
  import opened JsText

  /** The only pattern of the table, `/^[A-Za-z0-9]+$/`. */
  datatype Pattern = LettersAndDigits

  predicate IsAsciiLetterOrDigit(c: char) {
    'A' <= c <= 'Z' || 'a' <= c <= 'z' || '0' <= c <= '9'
  }

  predicate Matches(p: Pattern, v: string) {
    match p
    case LettersAndDigits => |v| > 0 && forall i :: 0 <= i < |v| ==> IsAsciiLetterOrDigit(v[i])
  }

  /** One entry of `validationRules`. A `minLength` of 0 stands for an absent one (both are
      falsy in the source's test). */
  datatype Rule = Rule(required: bool, pattern: Option<Pattern>, minLength: nat,
                       min: Option<int>, max: Option<int>, message: string)

  const NameMessage := "Employee name must be at least 2 characters long"
  const IdMessage := "Employee ID must contain only letters and numbers"
  const StartMessage := "Please select a start date"
  const EndMessage := "Please select an end date"
  const PercentMessage := "Percentage must be between 0 and 100"
  const NotANumber := "Please enter a valid number"
  const RequiredSuffix := " is required"

  const NameRule := Rule(true, None, 2, None, None, NameMessage)
  const IdRule := Rule(true, Some(LettersAndDigits), 0, None, None, IdMessage)
  const StartRule := Rule(true, None, 0, None, None, StartMessage)
  const EndRule := Rule(true, None, 0, None, None, EndMessage)
  const PercentRule := Rule(false, None, 0, Some(0), Some(100), PercentMessage)

  /** `validationRules`, in the order `Object.entries` lists it. */
  const RuleTable: seq<(string, Rule)> := [
    ("employeeName", NameRule),
    ("employeeId", IdRule),
    ("periodStart", StartRule),
    ("periodEnd", EndRule),
    ("dataEngTime", PercentRule),
    ("frontendDevOpsTime", PercentRule)
  ]

  const RuledNames: set<string> := {"employeeName", "employeeId", "periodStart", "periodEnd", "dataEngTime", "frontendDevOpsTime"}

  predicate DistinctNames(rules: seq<(string, Rule)>) {
    forall i, j :: 0 <= i < j < |rules| ==> rules[i].0 != rules[j].0
  }

  lemma RuleTableDistinct()
    ensures DistinctNames(RuleTable)
    ensures RuledNames == {"employeeName", "employeeId", "periodStart", "periodEnd", "dataEngTime", "frontendDevOpsTime"}
  {
  }

  /** The ruled names are exactly the field names of the table. */
  lemma RuledNamesAreTableNames()
    ensures RuledNames == set i | 0 <= i < |RuleTable| :: RuleTable[i].0
  {
    var names := set i | 0 <= i < |RuleTable| :: RuleTable[i].0;
    assert RuleTable[0].0 in names && RuleTable[1].0 in names && RuleTable[2].0 in names;
    assert RuleTable[3].0 in names && RuleTable[4].0 in names && RuleTable[5].0 in names;
  }

  /** Every field of the table is a ruled name. */
  lemma RuleTableNamesRuled(i: nat)
    requires i < |RuleTable|
    ensures RuleTable[i].0 in RuledNames
  {
  }

  /** The fields of the table, in order. */
  lemma RuleTableFields()
    ensures |RuleTable| == 6
    ensures RuleTable[0].0 == "employeeName" && RuleTable[1].0 == "employeeId"
    ensures RuleTable[2].0 == "periodStart" && RuleTable[3].0 == "periodEnd"
    ensures RuleTable[4].0 == "dataEngTime" && RuleTable[5].0 == "frontendDevOpsTime"
  {
  }

  /** `validationRules[fieldName]`: the rule of a ruled field, nothing for any other. */
  function RuleFor(name: string): (r: Option<Rule>)
    ensures r.Some? <==> name in RuledNames
  {
    if name == "employeeName" then Some(NameRule)
    else if name == "employeeId" then Some(IdRule)
    else if name == "periodStart" then Some(StartRule)
    else if name == "periodEnd" then Some(EndRule)
    else if name == "dataEngTime" || name == "frontendDevOpsTime" then Some(PercentRule)
    else None
  }

  /** Looking a field of the table up by name finds its own rule. */
  lemma {:induction false} RuleForTable(i: nat)
    requires i < |RuleTable|
    ensures RuleFor(RuleTable[i].0) == Some(RuleTable[i].1)
  {
    RuleTableFields();
    if i == 0 {
    } else if i == 1 {
    } else if i == 2 {
    } else if i == 3 {
    } else if i == 4 {
    } else {
      assert i == 5;
    }
  }

  /** `getFieldLabel`: the text of the field's `<label>` with its first `:` removed, or the
      field's name when it has no label. The label texts come from the page. */
  function FieldLabel(labels: map<string, string>, name: string): string {
    if name in labels then RemoveFirst(labels[name], ':') else name
  }

  /** `s.replace(c, '')` with a one-character string pattern: only the first `c` goes. */
  function RemoveFirst(s: string, c: char): (r: string)
    ensures c in s ==> |r| == |s| - 1
    ensures c !in s ==> r == s
  {
    if s == [] then s
    else if s[0] == c then s[1..]
    else [s[0]] + RemoveFirst(s[1..], c)
  }

  /** The character removed is the first `c`: everything before it and after it stays, in
      order. */
  lemma {:induction false} RemoveFirstSplits(s: string, c: char, k: nat)
    requires k < |s| && s[k] == c && c !in s[..k]
    ensures RemoveFirst(s, c) == s[..k] + s[k + 1..]
  {
    if k == 0 {
      assert s[..0] + s[1..] == s[1..];
    } else {
      assert s[0] in s[..k];
      assert s[1..][..k - 1] == s[1..k];
      RemoveFirstSplits(s[1..], c, k - 1);
      assert s[..k] == [s[0]] + s[1..k];
      assert s[1..][k..] == s[k + 1..];
    }
  }

  datatype Verdict = Pass | Fail(message: string)

  /** The guard chain of `validateField` applied to an already trimmed value. */
  function Decide(rule: Rule, caption: string, value: string): Verdict {
    if rule.required && value == [] then Fail(caption + RequiredSuffix)
    else if value == [] then Pass
    else if rule.pattern.Some? && !Matches(rule.pattern.value, value) then Fail(rule.message)
    else if rule.minLength > 0 && |value| < rule.minLength then Fail(rule.message)
    else if rule.min.Some? || rule.max.Some? then RangeVerdict(rule, ParseFloat(value))
    else Pass
  }

  /** The number range part of the chain, on what `parseFloat` made of the value. */
  function RangeVerdict(rule: Rule, number: Option<Num>): Verdict {
    match number
    case None => Fail(NotANumber)
    case Some(n) =>
      if rule.min.Some? && Below(n, rule.min.value) then Fail(rule.message)
      else if rule.max.Some? && Above(n, rule.max.value) then Fail(rule.message)
      else Pass
  }

  /** `validateField` on the field `name` whose control holds `raw`. */
  function CheckField(labels: map<string, string>, name: string, raw: string): Verdict {
    match RuleFor(name)
    case None => Pass
    case Some(rule) => Decide(rule, FieldLabel(labels, name), Trim(raw))
  }

  // A reference definition: the six checks as a list, and the first violated one.

  datatype Check = RequiredCheck | PatternCheck | MinLengthCheck | NumberCheck | MinCheck | MaxCheck

  const CheckOrder: seq<Check> := [RequiredCheck, PatternCheck, MinLengthCheck, NumberCheck, MinCheck, MaxCheck]

  /** Whether `rule` configures check `c` and the trimmed `value` violates it. Every check
      but the first one only looks at a non-empty value. */
  predicate Violates(rule: Rule, c: Check, value: string) {
    match c
    case RequiredCheck => rule.required && value == []
    case PatternCheck => value != [] && rule.pattern.Some? && !Matches(rule.pattern.value, value)
    case MinLengthCheck => value != [] && |value| < rule.minLength
    case NumberCheck => value != [] && (rule.min.Some? || rule.max.Some?) && ParseFloat(value).None?
    case MinCheck => value != [] && rule.min.Some? && ParseFloat(value).Some? && Below(ParseFloat(value).value, rule.min.value)
    case MaxCheck => value != [] && rule.max.Some? && ParseFloat(value).Some? && Above(ParseFloat(value).value, rule.max.value)
  }

  /** The message shown when check `c` fails. */
  function CheckMessage(rule: Rule, c: Check, caption: string): string {
    match c
    case RequiredCheck => caption + RequiredSuffix
    case NumberCheck => NotANumber
    case _ => rule.message
  }

  /** The position of the first check in `cs` that `value` violates (|cs| when none is). */
  function FirstViolation(rule: Rule, cs: seq<Check>, value: string): (k: nat)
    ensures k <= |cs|
    ensures forall j :: 0 <= j < k ==> !Violates(rule, cs[j], value)
    ensures k < |cs| ==> Violates(rule, cs[k], value)
  {
    if cs == [] then 0
    else if Violates(rule, cs[0], value) then 0
    else 1 + FirstViolation(rule, cs[1..], value)
  }

  /** The guard chain is the first-failure-wins reading of the check list: a value passes
      when it violates none of the six checks, and otherwise fails with the message of the
      first one it violates, every earlier one holding. */
  lemma DecideIsFirstViolation(rule: Rule, caption: string, value: string)
    ensures var k := FirstViolation(rule, CheckOrder, value);
            Decide(rule, caption, value) == if k == |CheckOrder| then Pass else Fail(CheckMessage(rule, CheckOrder[k], caption))
  {
    var k := FirstViolation(rule, CheckOrder, value);
    assert CheckOrder[0] == RequiredCheck && CheckOrder[1] == PatternCheck && CheckOrder[2] == MinLengthCheck;
    assert CheckOrder[3] == NumberCheck && CheckOrder[4] == MinCheck && CheckOrder[5] == MaxCheck;
    if k == |CheckOrder| {
      assert !Violates(rule, CheckOrder[0], value) && !Violates(rule, CheckOrder[1], value);
      assert !Violates(rule, CheckOrder[2], value) && !Violates(rule, CheckOrder[3], value);
      assert !Violates(rule, CheckOrder[4], value) && !Violates(rule, CheckOrder[5], value);
    }
  }

  /** A field the table has no rule for always passes. */
  lemma UnruledFieldPasses(labels: map<string, string>, name: string, raw: string)
    requires name !in RuledNames
    ensures CheckField(labels, name, raw) == Pass
  {
  }

  /** A ruled field is decided by its rule on the trimmed value. */
  lemma RuledCheck(labels: map<string, string>, name: string, raw: string, rule: Rule)
    requires RuleFor(name) == Some(rule)
    ensures CheckField(labels, name, raw) == Decide(rule, FieldLabel(labels, name), Trim(raw))
  {
  }

  /** An empty (or all white space) value of a field that is not required passes whatever
      its pattern, minimum length or bounds. */
  lemma EmptyOptionalPasses(labels: map<string, string>, name: string, raw: string)
    requires AllWhitespace(raw)
    requires RuleFor(name).None? || !RuleFor(name).value.required
    ensures CheckField(labels, name, raw) == Pass
  {
  }

  /** An empty (or all white space) value of a required field fails, naming the field. */
  lemma EmptyRequiredFails(labels: map<string, string>, name: string, raw: string)
    requires AllWhitespace(raw)
    requires name in {"employeeName", "employeeId", "periodStart", "periodEnd"}
    ensures CheckField(labels, name, raw) == Fail(FieldLabel(labels, name) + " is required")
  {
  }

  /** A required field (the first four of the table) that passes holds something besides
      white space. */
  lemma RequiredPassIsNonBlank(labels: map<string, string>, i: nat, raw: string)
    requires i < 4
    requires CheckField(labels, RuleTable[i].0, raw) == Pass
    ensures !AllWhitespace(raw)
  {
    RuleForTable(i);
    assert RuleTable[i].1.required by {
      assert i == 0 || i == 1 || i == 2 || i == 3;
    }
  }

  /** The ID rule on a non-empty trimmed value: the pattern decides. */
  lemma DecideId(caption: string, v: string)
    requires v != []
    ensures Decide(IdRule, caption, v) == if Matches(LettersAndDigits, v) then Pass else Fail(IdMessage)
  {
  }

  /** Once non-empty, `employeeId` passes exactly when it is made of ASCII letters and
      digits; otherwise it fails with the rule's message. */
  lemma EmployeeIdVerdict(labels: map<string, string>, raw: string)
    requires !AllWhitespace(raw)
    ensures var v := Trim(raw);
            CheckField(labels, "employeeId", raw) ==
              if forall i :: 0 <= i < |v| ==> IsAsciiLetterOrDigit(v[i]) then Pass else Fail(IdMessage)
  {
    RuledCheck(labels, "employeeId", raw, IdRule);
    DecideId(FieldLabel(labels, "employeeId"), Trim(raw));
  }

  /** The name rule on a non-empty trimmed value: the length decides. */
  lemma DecideName(caption: string, v: string)
    requires v != []
    ensures Decide(NameRule, caption, v) == if |v| < 2 then Fail(NameMessage) else Pass
  {
  }

  /** Once non-empty, `employeeName` fails exactly when its trimmed length is below 2. */
  lemma EmployeeNameVerdict(labels: map<string, string>, raw: string)
    requires !AllWhitespace(raw)
    ensures CheckField(labels, "employeeName", raw) == if |Trim(raw)| < 2 then Fail(NameMessage) else Pass
  {
    RuledCheck(labels, "employeeName", raw, NameRule);
    DecideName(FieldLabel(labels, "employeeName"), Trim(raw));
  }

  /** The percentage rule on a non-empty trimmed value: `parseFloat` and the range decide. */
  lemma DecidePercent(caption: string, v: string)
    requires v != []
    ensures Decide(PercentRule, caption, v) == RangeVerdict(PercentRule, ParseFloat(v))
  {
  }

  /** The range part of the percentage rule: NaN, out of 0..100, or a pass. */
  lemma PercentRange(number: Option<Num>)
    ensures number.None? ==> RangeVerdict(PercentRule, number) == Fail(NotANumber)
    ensures number.Some? ==>
              RangeVerdict(PercentRule, number) ==
                if Below(number.value, 0) || Above(number.value, 100) then Fail(PercentMessage) else Pass
  {
  }

  /** Once non-empty, a percentage fails with "Please enter a valid number" when `parseFloat`
      gives NaN, with the range message when the number lies outside 0..100, and passes
      otherwise. */
  lemma PercentageVerdict(labels: map<string, string>, name: string, raw: string)
    requires name == "dataEngTime" || name == "frontendDevOpsTime"
    requires !AllWhitespace(raw)
    ensures ParseFloat(Trim(raw)).None? ==> CheckField(labels, name, raw) == Fail(NotANumber)
    ensures ParseFloat(Trim(raw)).Some? ==>
              var n := ParseFloat(Trim(raw)).value;
              CheckField(labels, name, raw) == if Below(n, 0) || Above(n, 100) then Fail(PercentMessage) else Pass
  {
    RuledCheck(labels, name, raw, PercentRule);
    DecidePercent(FieldLabel(labels, name), Trim(raw));
    PercentRange(ParseFloat(Trim(raw)));
  }

  /** A percentage field holding "50.5" passes. */
  lemma HalfPercentPasses(labels: map<string, string>, name: string, raw: string)
    requires name == "dataEngTime" || name == "frontendDevOpsTime"
    requires raw == "50.5"
    ensures CheckField(labels, name, raw) == Pass
  {
    ParseHalfPercent(raw);
    PercentageVerdict(labels, name, raw);
  }

  /** A percentage field fails only with one of its two messages. */
  lemma PercentVerdictMessages(labels: map<string, string>, name: string, raw: string)
    requires name == "dataEngTime" || name == "frontendDevOpsTime"
    ensures CheckField(labels, name, raw) in {Pass, Fail(NotANumber), Fail(PercentMessage)}
  {
    RuledCheck(labels, name, raw, PercentRule);
    if !AllWhitespace(raw) {
      DecidePercent(FieldLabel(labels, name), Trim(raw));
      PercentRange(ParseFloat(Trim(raw)));
    }
  }

  /** A whole-number percentage typed in decimal passes exactly when it is at most 100. */
  lemma WholePercentageVerdict(labels: map<string, string>, name: string, n: nat)
    requires name == "dataEngTime" || name == "frontendDevOpsTime"
    ensures CheckField(labels, name, DecimalString(n)) == if n <= 100 then Pass else Fail(PercentMessage)
  {
    var s := DecimalString(n);
    assert !IsWhitespace(s[0]) && !IsWhitespace(s[|s| - 1]);
    TrimUnchanged(s);
    ParseFloatDecimal(n);
    PercentageVerdict(labels, name, s);
  }

  /** The date rules on a trimmed value: only the required check can fail. */
  lemma DecideDate(rule: Rule, caption: string, v: string)
    requires rule == StartRule || rule == EndRule
    ensures Decide(rule, caption, v) == if v == [] then Fail(caption + RequiredSuffix) else Pass
  {
  }

  /** A date field only ever fails its required check: the date rules' own messages are
      never shown. */
  lemma DateRuleMessagesUnused(labels: map<string, string>, name: string, raw: string)
    requires name == "periodStart" || name == "periodEnd"
    ensures CheckField(labels, name, raw) == if AllWhitespace(raw) then Fail(FieldLabel(labels, name) + " is required") else Pass
  {
    var rule := if name == "periodStart" then StartRule else EndRule;
    RuledCheck(labels, name, raw, rule);
    DecideDate(rule, FieldLabel(labels, name), Trim(raw));
  }
}
