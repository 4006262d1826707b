/**
 * The rules engine (`RCP_Rules_Engine`): conditions over an item's text,
 * categories, length and media, the dry run that tests a rule against
 * sample content, and the rules table that `save_rule` writes.
 */
module Rules {
  import opened Base
  import opened Php
  import opened Platform

  // ---------------------------------------------------------------- rules as stored

  /** One condition of a rule as stored: a missing type reads as ""; a missing operator or value is None. */
  datatype Condition = Condition(kind: string, operator: Option<string>, value: Option<string>)

  /** One action of a rule: a missing type or value reads as "". */
  datatype Action = Action(kind: string, value: string)

  /** The content a condition is tested against; missing fields read as "" or as an empty list. */
  datatype TestContent = TestContent(
    title: string,
    content: string,
    author: string,
    categories: seq<string>,
    sourceSite: string,
    enclosures: seq<string>)

  // ---------------------------------------------------------------- conditions

  const TextOperators: set<string> := {"contains", "not_contains", "equals", "not_equals", "starts_with", "ends_with", "regex"}

  /**
   * `evaluate_text_condition`, with the pattern the `regex` operator hands to
   * `preg_match` as a parameter: both sides are lower-cased, then the operator
   * decides; an unknown operator never matches.
   */
  function TextConditionWith(env: Env, text: string, operator: string, value: string, pattern: string): bool {
    var t := Lower(text);
    var v := Lower(value);
    match operator
    case "contains" => Contains(t, v)
    case "not_contains" => !Contains(t, v)
    case "equals" => t == v
    case "not_equals" => t != v
    case "starts_with" => StrPos(t, v) == Some(0)
    case "ends_with" => EndsWithPhp(t, v)
    case "regex" => env.pregMatch("/" + pattern + "/i", t)
    case _ => false
  }

  /** The text condition as written: the `regex` pattern is the lower-cased value. */
  function TextConditionAsWritten(env: Env, text: string, operator: string, value: string): bool {
    TextConditionWith(env, text, operator, value, Lower(value))
  }

  /** The text condition as intended: the `regex` pattern is the value as the user wrote it (the `i` flag already ignores case). */
  function TextCondition(env: Env, text: string, operator: string, value: string): bool {
    TextConditionWith(env, text, operator, value, value)
  }

  /** `contains` is case-insensitive substring membership and `not_contains` its negation; `equals` and `not_equals` are complementary. */
  lemma TextContainsMeaning(env: Env, text: string, value: string)
    ensures TextCondition(env, text, "contains", value) <==> IsSubstring(Lower(value), Lower(text))
    ensures TextCondition(env, text, "not_contains", value) <==> !TextCondition(env, text, "contains", value)
    ensures TextCondition(env, text, "equals", value) <==> Lower(text) == Lower(value)
    ensures TextCondition(env, text, "not_equals", value) <==> !TextCondition(env, text, "equals", value)
  {
    ContainsIsSubstring(Lower(text), Lower(value));
  }

  /** `starts_with` holds iff the value occurs at index 0; `ends_with` compares the tail, so an empty value matches only empty text. */
  lemma TextAffixMeaning(env: Env, text: string, value: string)
    ensures TextCondition(env, text, "starts_with", value) <==> Lower(value) <= Lower(text)
    ensures value == "" ==> (TextCondition(env, text, "ends_with", value) <==> text == "")
    ensures value != "" ==>
              (TextCondition(env, text, "ends_with", value) <==>
                 |value| <= |text| && Lower(text)[|text| - |value|..] == Lower(value))
  {
    StartsAtZeroIsPrefix(Lower(text), Lower(value));
    EndsWithPhpMeaning(Lower(text), Lower(value));
  }

  /** An operator outside the seven never matches, in either version. */
  lemma TextUnknownOperator(env: Env, text: string, operator: string, value: string)
    requires operator !in TextOperators
    ensures !TextCondition(env, text, operator, value) && !TextConditionAsWritten(env, text, operator, value)
  {
  }

  /** The two versions differ only in the pattern the `regex` operator matches with. */
  lemma TextVersionsAgreeOffRegex(env: Env, text: string, operator: string, value: string)
    requires operator != "regex" || Lower(value) == value
    ensures TextCondition(env, text, operator, value) == TextConditionAsWritten(env, text, operator, value)
  {
  }

  /**
   * With an engine that gives `\D+` and `\d+` their PCRE meaning on "abc" (a run
   * of non-digits is found, a run of digits is not), the rule "title matches
   * regex `\D+`" fails as written, because lower-casing turned `\D` into `\d`,
   * and holds as intended.
   */
  lemma RegexLowercasingFlipsClass(env: Env)
    requires env.pregMatch("/\\D+/i", "abc") && !env.pregMatch("/\\d+/i", "abc")
    ensures Lower("\\D+") == "\\d+"
    ensures !TextConditionAsWritten(env, "abc", "regex", "\\D+")
    ensures TextCondition(env, "abc", "regex", "\\D+")
  {
    assert Lower("abc") == "abc";
    assert Lower("\\D+") == "\\d+";
    assert "/" + "\\D+" + "/i" == "/\\D+/i";
    assert "/" + "\\d+" + "/i" == "/\\d+/i";
  }

  /** `evaluate_array_condition`: case-insensitive membership of the value among the items. */
  function ArrayCondition(items: seq<string>, operator: string, value: string): bool {
    var lowered := seq(|items|, i requires 0 <= i < |items| => Lower(items[i]));
    match operator
    case "contains" => Lower(value) in lowered
    case "not_contains" => Lower(value) !in lowered
    case _ => false
  }

  /** `contains` holds iff some item equals the value ignoring case, `not_contains` is its negation, anything else is false. */
  lemma ArrayConditionMeaning(items: seq<string>, operator: string, value: string)
    ensures operator == "contains" ==>
              (ArrayCondition(items, operator, value) <==> exists i :: 0 <= i < |items| && Lower(items[i]) == Lower(value))
    ensures ArrayCondition(items, "not_contains", value) <==> !ArrayCondition(items, "contains", value)
    ensures operator != "contains" && operator != "not_contains" ==> !ArrayCondition(items, operator, value)
  {
    var lowered := seq(|items|, i requires 0 <= i < |items| => Lower(items[i]));
    if operator == "contains" && ArrayCondition(items, operator, value) {
      var i :| 0 <= i < |lowered| && lowered[i] == Lower(value);
      assert Lower(items[i]) == Lower(value);
    }
    if exists i :: 0 <= i < |items| && Lower(items[i]) == Lower(value) {
      var i :| 0 <= i < |items| && Lower(items[i]) == Lower(value);
      assert lowered[i] == Lower(value);
    }
  }

  /** `evaluate_numeric_condition`. */
  function NumericCondition(n: int, operator: string, value: int): bool {
    match operator
    case "equals" => n == value
    case "greater_than" => n > value
    case "less_than" => n < value
    case _ => false
  }

  /** Exactly one of `equals`, `greater_than` and `less_than` holds for any pair. */
  lemma NumericTrichotomy(n: int, value: int)
    ensures NumericCondition(n, "equals", value) || NumericCondition(n, "greater_than", value) || NumericCondition(n, "less_than", value)
    ensures !(NumericCondition(n, "equals", value) && NumericCondition(n, "greater_than", value))
    ensures !(NumericCondition(n, "equals", value) && NumericCondition(n, "less_than", value))
    ensures !(NumericCondition(n, "greater_than", value) && NumericCondition(n, "less_than", value))
  {
  }

  /** The value a condition is evaluated with: "" when none is given. */
  function ValueOf(c: Condition): string {
    c.value.GetOr("")
  }

  /** The operator a condition is evaluated with: `contains` when none is given. */
  function OperatorOf(c: Condition): string {
    c.operator.GetOr("contains")
  }

  /** The text of the length condition: the tag-stripped content. */
  function VisibleText(content: TestContent): string {
    StripTags(content.content)
  }

  const ConditionKinds: set<string> := {"title_condition", "content_condition", "author_condition", "category_condition", "source_condition", "length_condition", "has_media"}

  /** `evaluate_condition`: dispatch on the condition type; an unknown type never matches. */
  function EvaluateCondition(env: Env, c: Condition, content: TestContent): bool {
    var op := OperatorOf(c);
    match c.kind
    case "title_condition" => TextCondition(env, content.title, op, ValueOf(c))
    case "content_condition" => TextCondition(env, content.content, op, ValueOf(c))
    case "author_condition" => TextCondition(env, content.author, op, ValueOf(c))
    case "category_condition" => ArrayCondition(content.categories, op, ValueOf(c))
    case "source_condition" => TextCondition(env, content.sourceSite, op, ValueOf(c))
    case "length_condition" => NumericCondition(|VisibleText(content)|, op, IntVal(ValueOf(c)))
    case "has_media" => |content.enclosures| > 0
    case _ => false
  }

  /**
   * An unknown type is false, `has_media` tests the enclosures, and the
   * length condition measures the tag-stripped text, which is never longer
   * than the content and equals it without NUL bytes when no `<` opens a tag.
   */
  lemma EvaluateConditionKinds(env: Env, c: Condition, content: TestContent)
    ensures c.kind !in ConditionKinds ==> !EvaluateCondition(env, c, content)
    ensures c.kind == "has_media" ==> (EvaluateCondition(env, c, content) <==> content.enclosures != [])
    ensures c.kind == "length_condition" ==>
              EvaluateCondition(env, c, content) == NumericCondition(|VisibleText(content)|, OperatorOf(c), IntVal(ValueOf(c))) &&
              |VisibleText(content)| <= |content.content|
    ensures NoTagOpens(content.content) ==> VisibleText(content) == DropNul(content.content)
  {
    if NoTagOpens(content.content) {
      StripTagsPlainText(content.content);
    }
  }

  // ---------------------------------------------------------------- explanations and actions

  /** `get_condition_explanation`: `"<status>: '<field>' <operator> '<value>'"`, the field being the title, the first ten words of the content, the author, or "". */
  function Explanation(env: Env, c: Condition, content: TestContent, result: bool): (r: string)
    ensures result <==> "MATCHED" <= r
    ensures !result ==> "DID NOT MATCH" <= r
  {
    var field :=
      match c.kind
      case "title_condition" => content.title
      case "content_condition" => env.trimWords(content.content, 10)
      case "author_condition" => content.author
      case _ => "";
    var status := if result then "MATCHED" else "DID NOT MATCH";
    var r := status + ": '" + field + "' " + c.operator.GetOr("") + " '" + ValueOf(c) + "'";
    assert r[..|status|] == status;
    assert r[0] == status[0];
    r
  }

  /** `simulate_action`: the sentence the action would produce. */
  function SimulateAction(a: Action): string {
    match a.kind
    case "assign_category" => "Would assign category: " + a.value
    case "assign_tags" => "Would assign tags: " + a.value
    case "set_status" => "Would set post status to: " + a.value
    case "send_to_webhook" => "Would send to webhook ID: " + a.value
    case _ => "Unknown action: " + a.kind
  }

  const ActionKinds: set<string> := {"assign_category", "assign_tags", "set_status", "send_to_webhook"}

  /** A known action's sentence ends with its value; an unknown one names its type. */
  lemma SimulateActionMeaning(a: Action)
    ensures a.kind in ActionKinds ==> |a.value| <= |SimulateAction(a)| && SimulateAction(a)[|SimulateAction(a)| - |a.value|..] == a.value
    ensures a.kind !in ActionKinds ==> SimulateAction(a) == "Unknown action: " + a.kind
  {
  }

  // ---------------------------------------------------------------- the dry run

  datatype ConditionReport = ConditionReport(condition: Condition, result: bool, explanation: string)
  datatype ActionReport = ActionReport(action: Action, result: string)
  datatype TestReport = TestReport(overallMatch: bool, conditions: seq<ConditionReport>, actions: seq<ActionReport>, content: TestContent)

  /** The report line of one condition. */
  function ReportOf(env: Env, c: Condition, content: TestContent): ConditionReport {
    var result := EvaluateCondition(env, c, content);
    ConditionReport(c, result, Explanation(env, c, content, result))
  }

  /**
   * `test_rule_against_content`: every condition is evaluated, in order and
   * without short-circuit; the rule matches iff all of them hold (so an empty
   * list matches); actions are simulated only on a match.
   */
  method TestRuleAgainstContent(env: Env, conditions: seq<Condition>, actions: seq<Action>, content: TestContent)
    returns (report: TestReport)
    ensures |report.conditions| == |conditions|
    ensures forall i :: 0 <= i < |conditions| ==> report.conditions[i] == ReportOf(env, conditions[i], content)
    ensures report.overallMatch <==> forall i :: 0 <= i < |conditions| ==> EvaluateCondition(env, conditions[i], content)
    ensures report.overallMatch ==>
              |report.actions| == |actions| &&
              forall i :: 0 <= i < |actions| ==> report.actions[i] == ActionReport(actions[i], SimulateAction(actions[i]))
    ensures !report.overallMatch ==> report.actions == []
    ensures report.content == content
  {
    var results, overall := EvaluateAll(env, conditions, content);
    var simulated: seq<ActionReport> := [];
    if overall {
      simulated := SimulateAll(actions);
    }
    report := TestReport(overall, results, simulated, content);
  }

  /** The condition loop of `test_rule_against_content`: one report per condition, and whether all held. */
  method EvaluateAll(env: Env, conditions: seq<Condition>, content: TestContent)
    returns (results: seq<ConditionReport>, overall: bool)
    ensures |results| == |conditions|
    ensures forall i :: 0 <= i < |conditions| ==> results[i] == ReportOf(env, conditions[i], content)
    ensures overall <==> forall i :: 0 <= i < |conditions| ==> EvaluateCondition(env, conditions[i], content)
  {
    results := [];
    overall := true;
    for i := 0 to |conditions|
      invariant |results| == i
      invariant forall k :: 0 <= k < i ==> results[k] == ReportOf(env, conditions[k], content)
      invariant overall <==> forall k :: 0 <= k < i ==> EvaluateCondition(env, conditions[k], content)
    {
      var line := ReportOf(env, conditions[i], content);
      assert line.result == EvaluateCondition(env, conditions[i], content);
      results := results + [line];
      if !line.result {
        overall := false;
      }
    }
  }

  /** The action loop of `test_rule_against_content`: each action with what it would do. */
  method SimulateAll(actions: seq<Action>) returns (simulated: seq<ActionReport>)
    ensures |simulated| == |actions|
    ensures forall i :: 0 <= i < |actions| ==> simulated[i] == ActionReport(actions[i], SimulateAction(actions[i]))
  {
    simulated := [];
    for i := 0 to |actions|
      invariant |simulated| == i
      invariant forall k :: 0 <= k < i ==> simulated[k] == ActionReport(actions[k], SimulateAction(actions[k]))
    {
      simulated := simulated + [ActionReport(actions[i], SimulateAction(actions[i]))];
    }
  }

  // ---------------------------------------------------------------- the rules table

  /** A row of the rules table. `conditions` and `actions` are None when the stored JSON is `null` or does not decode. */
  datatype RuleRow = RuleRow(
    id: int,
    name: string,
    feedId: Option<int>,
    priority: int,
    conditions: Option<seq<Condition>>,
    actions: Option<seq<Action>>,
    webhookId: Option<int>,
    active: int)

  /**
   * The submitted rule data. `id` is the raw submitted string, whose
   * truthiness decides between update and insert before `intval` reads it;
   * the other fields are already converted by `intval` where the source
   * converts them.
   */
  datatype RuleInput = RuleInput(
    id: Option<string>,
    name: string,
    feedId: Option<int>,
    priority: Option<int>,
    conditions: Option<seq<Condition>>,
    actions: Option<seq<Action>>,
    webhookId: Option<int>,
    active: Option<int>)

  /** The row `save_rule` writes for the input, under `id`: priority 10 and active 1 unless given. */
  function RowOf(input: RuleInput, id: int): RuleRow {
    RuleRow(id, input.name, input.feedId, input.priority.GetOr(10), input.conditions, input.actions, input.webhookId, input.active.GetOr(1))
  }

  /** `$wpdb->update(... ['id' => $id])`: every row with that id gets the new data; no such row, no change. */
  function UpdateRows(rows: seq<RuleRow>, id: int, input: RuleInput): (r: seq<RuleRow>)
    ensures |r| == |rows|
    ensures forall i :: 0 <= i < |rows| ==> r[i] == if rows[i].id == id then RowOf(input, id) else rows[i]
  {
    seq(|rows|, i requires 0 <= i < |rows| => if rows[i].id == id then RowOf(input, id) else rows[i])
  }

  /** The row with a given id, if any. */
  function Find(rows: seq<RuleRow>, id: int): Option<RuleRow> {
    if rows == [] then None
    else if rows[0].id == id then Some(rows[0])
    else Find(rows[1..], id)
  }

  /** Ids are unique, so `Find` identifies a row. */
  ghost predicate UniqueIds(rows: seq<RuleRow>) {
    forall i, j :: 0 <= i < j < |rows| ==> rows[i].id != rows[j].id
  }

  lemma {:induction false} FindSpec(rows: seq<RuleRow>, id: int)
    ensures Find(rows, id).Some? <==> exists i :: 0 <= i < |rows| && rows[i].id == id
    ensures Find(rows, id).Some? ==> Find(rows, id).value.id == id && Find(rows, id).value in rows
  {
    if rows != [] && rows[0].id != id {
      FindSpec(rows[1..], id);
      if exists i :: 0 <= i < |rows| && rows[i].id == id {
        var i :| 0 <= i < |rows| && rows[i].id == id;
        assert rows[1..][i - 1].id == id;
      }
    }
  }

  /** After an update, looking up the id finds the new data, and no other id sees a change. */
  lemma {:induction false} UpdateRowsFind(rows: seq<RuleRow>, id: int, input: RuleInput, other: int)
    ensures Find(UpdateRows(rows, id, input), id) == if Find(rows, id).Some? then Some(RowOf(input, id)) else None
    ensures other != id ==> Find(UpdateRows(rows, id, input), other) == Find(rows, other)
  {
    if rows != [] {
      var r := UpdateRows(rows, id, input);
      assert r[1..] == UpdateRows(rows[1..], id, input);
      UpdateRowsFind(rows[1..], id, input, other);
    }
  }

  /** An update under an id no row has changes nothing, so `save_rule` with such an id only returns it. */
  lemma {:induction false} UpdateMissingIdKeepsRows(rows: seq<RuleRow>, id: int, input: RuleInput)
    requires Find(rows, id).None?
    ensures UpdateRows(rows, id, input) == rows
  {
    FindSpec(rows, id);
  }

  /** Truthy ids that `intval` reads as 0: `save_rule` then targets id 0, which no row has. */
  lemma TruthyIdsReadAsZero()
    ensures !Empty("00") && IntVal("00") == 0
    ensures !Empty("abc") && IntVal("abc") == 0
  {
    assert LeadingDigits("abc") == [];
    assert LeadingDigits("00") == "00";
  }

  datatype RuleError = DbError

  /** `isset($rule_data['id']) && $rule_data['id']`: a submitted id that is neither "" nor "0". */
  predicate UpdatesExisting(input: RuleInput) {
    input.id.Some? && !Empty(input.id.value)
  }

  /** The rules table. New rows get increasing positive ids. */
  class RulesEngine {
    var rows: seq<RuleRow>
    var nextId: nat

    ghost predicate Valid()
      reads this
    {
      nextId > 0 && UniqueIds(rows) && forall i :: 0 <= i < |rows| ==> 0 < rows[i].id < nextId
    }

    constructor ()
      ensures Valid() && rows == []
    {
      rows := [];
      nextId := 1;
    }

    /**
     * `save_rule`: a truthy submitted id updates the row with its `intval`
     * (a missing row, such as id 0 for `"abc"` or `"00"`, is left alone) and
     * that `intval` is returned; otherwise a new row is inserted and its id
     * returned.
     */
    method SaveRule(input: RuleInput) returns (id: int)
      requires Valid()
      modifies this
      ensures Valid()
      ensures UpdatesExisting(input) ==>
                id == IntVal(input.id.value) && rows == UpdateRows(old(rows), id, input) && nextId == old(nextId)
      ensures !UpdatesExisting(input) ==>
                id == old(nextId) && rows == old(rows) + [RowOf(input, id)] && nextId == old(nextId) + 1
    {
      if UpdatesExisting(input) {
        id := IntVal(input.id.value);
        rows := UpdateRows(rows, id, input);
      } else {
        id := nextId;
        rows := rows + [RowOf(input, id)];
        nextId := nextId + 1;
      }
    }
  }

  /** A freshly inserted rule is found under the returned id with the submitted data. */
  lemma InsertedRuleFound(rows: seq<RuleRow>, input: RuleInput, id: int)
    requires forall i :: 0 <= i < |rows| ==> rows[i].id != id
    ensures Find(rows + [RowOf(input, id)], id) == Some(RowOf(input, id))
  {
    FindAppend(rows, RowOf(input, id), id);
    FindSpec(rows, id);
  }

  lemma {:induction false} FindAppend(rows: seq<RuleRow>, row: RuleRow, id: int)
    ensures Find(rows + [row], id) == if Find(rows, id).Some? then Find(rows, id) else if row.id == id then Some(row) else None
  {
    if rows != [] {
      assert (rows + [row])[1..] == rows[1..] + [row];
      FindAppend(rows[1..], row, id);
    } else {
      assert rows + [row] == [row];
    }
  }
}
