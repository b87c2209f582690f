/** The editing row of one condition: what a field, operator or value change
    does to the condition, the default value a new field starts with, and how
    the value controls turn a selection into a value. */
module ConditionEditor {
  import opened Wrappers
  import opened JsValues
  import opened RuleTypes
  import opened RuleUtils

  // ------------------------------------------------------------ field table

  /** `table.find((f) => f.value === name)`: the first entry for the field
      named name. */
  function FindFieldIn(table: seq<FieldOption>, name: Json): (r: Option<FieldOption>)
    ensures r.Some? ==> r.value in table && name == Str(FieldName(r.value.value))
    ensures r.Some? ==> exists k :: 0 <= k < |table| && table[k] == r.value &&
                          forall k' :: 0 <= k' < k ==> name != Str(FieldName(table[k'].value))
    ensures r.None? <==> forall k :: 0 <= k < |table| ==> name != Str(FieldName(table[k].value))
  {
    if |table| == 0 then None
    else if name == Str(FieldName(table[0].value)) then Some(table[0])
    else
      var r := FindFieldIn(table[1..], name);
      assert forall k :: 1 <= k < |table| ==> table[k] == table[1..][k - 1];
      if r.Some? then
        var k :| 0 <= k < |table[1..]| && table[1..][k] == r.value &&
                 forall k' :: 0 <= k' < k ==> name != Str(FieldName(table[1..][k'].value));
        assert table[k + 1] == r.value;
        r
      else r
  }

  /** `SIGNAL_FIELDS.find((f) => f.value === name)`: a field name finds its
      own entry of the table, and anything else finds nothing. */
  function FindField(name: Json): (r: Option<FieldOption>)
    ensures forall f :: name == Str(FieldName(f)) ==> r == Some(SignalFields[FieldIndex(f)])
    ensures r.None? <==> forall f :: name != Str(FieldName(f))
  {
    var r := FindFieldIn(SignalFields, name);
    forall f | name == Str(FieldName(f))
      ensures r == Some(SignalFields[FieldIndex(f)])
    {
      SignalFieldsListEachFieldOnce(f);
      var k :| 0 <= k < |SignalFields| && SignalFields[k] == r.value &&
               forall k' :: 0 <= k' < k ==> name != Str(FieldName(SignalFields[k'].value));
      FieldNameInjective(f, SignalFields[k].value);
    }
    r
  }

  /** Distinct fields have distinct names. */
  lemma FieldNameInjective(f: SignalField, g: SignalField)
    requires FieldName(f) == FieldName(g)
    ensures f == g
  {
  }

  // ------------------------------------------------------------ field change

  /** The value a condition takes when its field changes to name
      (`handleFieldChange`'s `newValue`): `true` for a boolean field, the
      first option of a select field, and `''` for a text field or a name
      that is not in the table. The value is one the field's control offers,
      and never null nor a list. */
  function DefaultValue(name: Json): (r: Json)
    ensures r.Str? || r.Bool?
    ensures FindField(name).Some? && FindField(name).value.valueType == Boolean ==> r == Bool(true)
    ensures FindField(name).Some? && FindField(name).value.valueType == Select ==>
              exists o :: o in FindField(name).value.options.value && r == Str(o.value)
    ensures FindField(name).Some? && FindField(name).value.valueType == Select ==>
              r == Str(FindField(name).value.options.value[0].value)
    ensures FindField(name).None? || FindField(name).value.valueType == Text ==> r == Str("")
  {
    match FindField(name)
    case None => Str("")
    case Some(fo) =>
      if fo.valueType == Boolean then Bool(true)
      else if fo.valueType == Select && fo.options.Some? then
        // `fieldConfig.options` is truthy for any array; every select entry
        // of the table has at least one option, so `options[0]` exists.
        SelectFieldsHaveOptions();
        Str(fo.options.value[0].value)
      else
        SelectFieldsHaveOptions();
        Str("")
  }

  /** The first option of each select field of the table, and `true` for
      the boolean field `returning_visitor`. */
  function TableDefault(f: SignalField): Json {
    match f
    case Industry => Str("pharma")
    case Solution => Str("automation")
    case ReturningVisitor => Bool(true)
    case VisitIntent => Str("learn")
    case PageCategory => Str("products")
    case ContentType => Str("article")
  }

  /** The default value of each field of the table, e.g. `industry` starts at
      `'pharma'`. */
  lemma DefaultValueOfField(f: SignalField)
    ensures DefaultValue(Str(FieldName(f))) == TableDefault(f)
  {
    var fo := SignalFields[FieldIndex(f)];
    assert FindField(Str(FieldName(f))) == Some(fo);
    match f
    case ReturningVisitor =>
      assert fo.valueType == Boolean;
    case _ =>
      assert fo.valueType == Select && fo.options.Some?;
      assert Str(fo.options.value[0].value) == TableDefault(f);
  }

  /** `handleFieldChange`: the condition keeps its id and operator, takes the
      new field, and takes that field's default value. It is complete exactly
      when the new field name and the kept operator are non-empty. */
  function ChangeField(c: RuleCondition, newField: string): (r: RuleCondition)
    ensures r.id == c.id && r.operator == c.operator && r.field == Str(newField)
    ensures r.value == DefaultValue(Str(newField))
    ensures ConditionComplete(r) <==> newField != "" && c.operator != ""
  {
    c.(field := Str(newField), value := DefaultValue(Str(newField)))
  }

  /** Changing to any field of the table, from a condition with an
      `OperatorType` operator, gives a well-typed and complete condition. */
  lemma ChangeFieldWellTyped(c: RuleCondition, f: SignalField)
    requires IsOperatorType(c.operator)
    ensures WellTyped(ChangeField(c, FieldName(f)))
    ensures ConditionComplete(ChangeField(c, FieldName(f)))
  {
    var o := ParseOperator(c.operator).value;
    assert OperatorKey(o) != "";
    assert FieldName(f) != "";
    assert ChangeField(c, FieldName(f)).field == Str(FieldName(f));
  }

  // --------------------------------------------------- operator and value

  /** `handleOperatorChange`: only the operator changes; in particular the
      value is kept, so a scalar value stays a scalar under `$in`. Whether the
      condition is complete does not change, as long as both operators are
      non-empty. */
  function ChangeOperator(c: RuleCondition, newOperator: string): (r: RuleCondition)
    ensures r.id == c.id && r.field == c.field && r.value == c.value && r.operator == newOperator
    ensures c.operator != "" && newOperator != "" ==> (ConditionComplete(r) <==> ConditionComplete(c))
  {
    c.(operator := newOperator)
  }

  /** `handleValueChange`: only the value changes. The condition is then
      complete exactly when its field and operator are set and the new value
      is not null, undefined or an empty list. */
  function ChangeValue(c: RuleCondition, newValue: Json): (r: RuleCondition)
    ensures r.id == c.id && r.field == c.field && r.operator == c.operator && r.value == newValue
    ensures ConditionComplete(r) <==>
              Truthy(c.field) && c.operator != "" && !newValue.Null? && !newValue.Undefined? &&
              newValue != Arr([])
  {
    c.(value := newValue)
  }

  // ----------------------------------------------------------- value input

  /** The control `renderValueInput` shows for a condition's value. */
  datatype ValueInput =
    | NoInput
    | BooleanChoice
    | MultiChoice(options: seq<SelectOption>, current: seq<Json>)
    | SingleChoice(options: seq<SelectOption>)
    | TextEntry

  /** The values a multiple selection shows as chosen:
      `Array.isArray(value) ? value : [value]`. */
  function CurrentValues(value: Json): (r: seq<Json>)
    ensures value.Arr? ==> r == value.items
    ensures !value.Arr? ==> |r| == 1 && r[0] == value
  {
    if value.Arr? then value.items else [value]
  }

  /** `renderValueInput`: nothing for a field not in the table, a yes/no
      choice for a boolean field, for a select field a multiple choice under
      `$in` and `$nin` (showing a scalar value as a one-element list) and a
      single choice otherwise, and a text box for a text field. */
  function InputFor(c: RuleCondition): (r: ValueInput)
    ensures FindField(c.field).None? ==> r == NoInput
    ensures FindField(c.field).Some? ==>
              var fo := FindField(c.field).value;
              && (fo.valueType == Boolean <==> r == BooleanChoice)
              && (fo.valueType == Text <==> r == TextEntry)
              && (fo.valueType == Select ==>
                    if c.operator == "$in" || c.operator == "$nin" then
                      r == MultiChoice(fo.options.value, CurrentValues(c.value))
                    else r == SingleChoice(fo.options.value))
  {
    match FindField(c.field)
    case None => NoInput
    case Some(fo) =>
      match fo.valueType
      case Boolean => BooleanChoice
      case Select =>
        if fo.options.None? then NoInput
        else if c.operator == "$in" || c.operator == "$nin" then
          MultiChoice(fo.options.value, CurrentValues(c.value))
        else SingleChoice(fo.options.value)
      case Text => TextEntry
  }

  /** `String(value)` of a boolean, the option a yes/no choice shows. */
  function BooleanOption(b: bool): string {
    if b then "true" else "false"
  }

  /** The value a yes/no choice produces: `e.target.value === 'true'`. */
  function FromBooleanChoice(selected: string): (r: Json)
    ensures r.Bool? && (r.b <==> selected == "true")
  {
    Bool(selected == "true")
  }

  /** Choosing the option a yes/no choice shows for a boolean gives that
      boolean back, and each of the two options is the one shown for the
      boolean it produces. */
  lemma BooleanChoiceRoundTrip(b: bool, selected: string)
    ensures FromBooleanChoice(BooleanOption(b)) == Bool(b)
    ensures selected == BooleanOption(true) || selected == BooleanOption(false) ==>
              BooleanOption(FromBooleanChoice(selected).b) == selected
  {
    assert "false" != "true";
  }

  /** The value a multiple choice produces: the selected option values, as a
      list of strings. */
  function FromMultiChoice(selected: seq<string>): (r: Json)
    ensures r.Arr? && |r.items| == |selected|
    ensures forall i :: 0 <= i < |selected| ==> r.items[i] == Str(selected[i])
  {
    Arr(seq(|selected|, i requires 0 <= i < |selected| => Str(selected[i])))
  }

  /** Every value control produces a value of the declared type
      `string | string[] | boolean`; a multiple choice with nothing selected
      produces the empty list, which makes the condition incomplete. */
  lemma ChoicesAreRuleValues(c: RuleCondition, selected: seq<string>, s: string)
    ensures IsRuleValue(FromBooleanChoice(s))
    ensures IsRuleValue(FromMultiChoice(selected))
    ensures !ConditionComplete(ChangeValue(c, FromMultiChoice([])))
  {
    assert FromMultiChoice([]) == Arr([]);
  }

  /** A value chosen with any control keeps a well-typed condition well
      typed. A yes/no choice, a single choice and a text entry also make it
      complete; a multiple choice makes it complete exactly when something
      is selected. */
  lemma ChoiceKeepsConditionWellTyped(c: RuleCondition, selected: seq<string>, s: string)
    requires WellTyped(c)
    ensures var r := ChangeValue(c, FromBooleanChoice(s)); WellTyped(r) && ConditionComplete(r)
    ensures var r := ChangeValue(c, Str(s)); WellTyped(r) && ConditionComplete(r)
    ensures var r := ChangeValue(c, FromMultiChoice(selected));
            WellTyped(r) && (ConditionComplete(r) <==> selected != [])
  {
    var f :| c.field == Str(FieldName(f));
    assert FieldName(f) != "";
    assert OperatorKey(ParseOperator(c.operator).value) != "";
    ChoicesAreRuleValues(c, selected, s);
    if selected == [] {
      assert FromMultiChoice(selected) == Arr([]);
    }
  }
}
