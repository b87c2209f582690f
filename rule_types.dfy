/** The rule builder's data model: the operator, field and logic enumerations,
    conditions and groups as the editor holds them, the shape of the stored
    form, and the two constant tables the editor draws its choices from. */
module RuleTypes {
  import opened Wrappers
  import opened JsValues

  /** `OperatorType`: the comparison operators. */
  datatype Operator = Eq | Ne | In | Nin | Gt | Lt | Gte | Lte | Contains

  const AllOperators: seq<Operator> := [Eq, Ne, In, Nin, Gt, Lt, Gte, Lte, Contains]

  /** The key an operator is stored under. */
  function OperatorKey(o: Operator): string {
    match o
    case Eq => "$eq"
    case Ne => "$ne"
    case In => "$in"
    case Nin => "$nin"
    case Gt => "$gt"
    case Lt => "$lt"
    case Gte => "$gte"
    case Lte => "$lte"
    case Contains => "$contains"
  }

  /** The operator a string names, if it names one. */
  function ParseOperator(s: string): (r: Option<Operator>)
    ensures r.Some? ==> OperatorKey(r.value) == s
  {
    if s == "$eq" then Some(Eq)
    else if s == "$ne" then Some(Ne)
    else if s == "$in" then Some(In)
    else if s == "$nin" then Some(Nin)
    else if s == "$gt" then Some(Gt)
    else if s == "$lt" then Some(Lt)
    else if s == "$gte" then Some(Gte)
    else if s == "$lte" then Some(Lte)
    else if s == "$contains" then Some(Contains)
    else None
  }

  /** Membership of a string in `OperatorType`. */
  predicate IsOperatorType(s: string) {
    ParseOperator(s).Some?
  }

  /** `OperatorType` has exactly the nine members of AllOperators, each
      spelled by its own key. */
  lemma OperatorTypeMembers(o: Operator, s: string)
    ensures |AllOperators| == 9 && o in AllOperators
    ensures ParseOperator(OperatorKey(o)) == Some(o)
    ensures IsOperatorType(s) <==> s in ["$eq", "$ne", "$in", "$nin", "$gt", "$lt", "$gte", "$lte", "$contains"]
  {
  }

  /** `LogicOperator`: how the conditions of a group combine. */
  datatype Logic = And | Or

  function LogicKey(l: Logic): string {
    match l
    case And => "$and"
    case Or => "$or"
  }

  predicate IsLogicKey(s: string) {
    s == "$and" || s == "$or"
  }

  /** `LogicOperator` is exactly `$and` | `$or`, and no operator key is a logic key. */
  lemma LogicOperatorMembers(l: Logic, s: string, o: Operator)
    ensures IsLogicKey(s) <==> exists l' :: LogicKey(l') == s
    ensures l == And || l == Or
    ensures !IsLogicKey(OperatorKey(o))
  {
    if s == "$and" {
      assert LogicKey(And) == s;
    } else if s == "$or" {
      assert LogicKey(Or) == s;
    }
  }

  /** `SignalField`: the visitor attributes a condition can test. */
  datatype SignalField = Industry | Solution | ReturningVisitor | VisitIntent | PageCategory | ContentType

  function FieldName(f: SignalField): string {
    match f
    case Industry => "industry"
    case Solution => "solution"
    case ReturningVisitor => "returning_visitor"
    case VisitIntent => "visit_intent"
    case PageCategory => "page_category"
    case ContentType => "content_type"
  }

  /** The declared type of a condition's value: `string | string[] | boolean`. */
  predicate IsRuleValue(v: Json) {
    match v
    case Str(_) => true
    case Bool(_) => true
    case Arr(items) => forall i :: 0 <= i < |items| ==> items[i].Str?
    case _ => false
  }

  /** `RuleCondition`. The decoder casts `field`, `operator` and `value` from
      stored data without checking them, so the model keeps `field` and `value`
      as the JavaScript values they are at run time and `operator` as the key
      it was read from; the declared types are the predicate WellTyped. */
  datatype RuleCondition = RuleCondition(id: string, field: Json, operator: string, value: Json)

  predicate WellTyped(c: RuleCondition) {
    && (exists f :: c.field == Str(FieldName(f)))
    && IsOperatorType(c.operator)
    && IsRuleValue(c.value)
  }

  /** `RuleGroup`. */
  datatype RuleGroup = RuleGroup(logic: Logic, conditions: seq<RuleCondition>)

  /** `RuleOperatorCondition` as the encoder builds it: one operator key
      mapping to `{field, value}`. */
  predicate IsOperatorCondition(j: Json) {
    j.Obj? && |j.members| == 1 &&
    var payload := j.members[0].1;
    payload.Obj? && MemberKeys(payload.members) == ["field", "value"]
  }

  /** `RuleJSON`, together with the empty object that stands for "no rule":
      a single operator-condition, or one logic key mapping to a list of them. */
  predicate IsRuleJson(j: Json) {
    || j == Obj([])
    || IsOperatorCondition(j)
    || (j.Obj? && |j.members| == 1 && IsLogicKey(j.members[0].0) && j.members[0].1.Arr? &&
        forall i :: 0 <= i < |j.members[0].1.items| ==> IsOperatorCondition(j.members[0].1.items[i]))
  }

  /** `FieldOption`: one entry of the field table. */
  datatype ValueType = Text | Select | Boolean
  datatype SelectOption = SelectOption(value: string, caption: string)
  datatype FieldOption = FieldOption(value: SignalField, caption: string, valueType: ValueType,
                                     options: Option<seq<SelectOption>>)

  /** `SIGNAL_FIELDS`. */
  const SignalFields: seq<FieldOption> := [
    FieldOption(Industry, "Industry", Select, Some([
      SelectOption("pharma", "Pharma & Life Sciences"),
      SelectOption("logistics", "Logistics & Supply Chain"),
      SelectOption("food", "Food & Beverage"),
      SelectOption("retail", "Retail"),
      SelectOption("manufacturing", "Manufacturing")])),
    FieldOption(Solution, "Solution Interest", Select, Some([
      SelectOption("automation", "Automation"),
      SelectOption("digital", "Digital Solutions"),
      SelectOption("packaging", "Packaging"),
      SelectOption("supply_chain", "Supply Chain")])),
    FieldOption(ReturningVisitor, "Returning Visitor", Boolean, None),
    FieldOption(VisitIntent, "Visit Intent", Select, Some([
      SelectOption("learn", "Learn"),
      SelectOption("explore", "Explore Solutions"),
      SelectOption("contact", "Contact Sales")])),
    FieldOption(PageCategory, "Page Category", Select, Some([
      SelectOption("products", "Products"),
      SelectOption("solutions", "Solutions"),
      SelectOption("about", "About Us"),
      SelectOption("resources", "Resources")])),
    FieldOption(ContentType, "Content Type", Select, Some([
      SelectOption("article", "Article"),
      SelectOption("case_study", "Case Study"),
      SelectOption("whitepaper", "Whitepaper"),
      SelectOption("video", "Video")]))
  ]

  /** `OPERATORS`, in the order the operator selector shows them. */
  datatype OperatorOption = OperatorOption(value: Operator, caption: string)

  const Operators: seq<OperatorOption> := [
    OperatorOption(Eq, "equals"),
    OperatorOption(Ne, "not equals"),
    OperatorOption(In, "is one of"),
    OperatorOption(Nin, "is not one of"),
    OperatorOption(Contains, "contains"),
    OperatorOption(Gt, "greater than"),
    OperatorOption(Lt, "less than"),
    OperatorOption(Gte, "greater or equal"),
    OperatorOption(Lte, "less or equal")
  ]

  /** The position of a field in SignalFields. */
  function FieldIndex(f: SignalField): nat {
    match f
    case Industry => 0
    case Solution => 1
    case ReturningVisitor => 2
    case VisitIntent => 3
    case PageCategory => 4
    case ContentType => 5
  }

  /** SignalFields lists every SignalField exactly once. */
  lemma SignalFieldsListEachFieldOnce(f: SignalField)
    ensures FieldIndex(f) < |SignalFields| && SignalFields[FieldIndex(f)].value == f
    ensures forall i :: 0 <= i < |SignalFields| && SignalFields[i].value == f ==> i == FieldIndex(f)
  {
  }

  /** Every select entry of SignalFields has options, and at least one, so
      the first option always exists. */
  lemma SelectFieldsHaveOptions()
    ensures forall fo :: fo in SignalFields && fo.valueType == Select ==>
              fo.options.Some? && |fo.options.value| > 0
  {
  }

  /** `returning_visitor` is the only boolean field, and no field is a text field. */
  lemma OnlyReturningVisitorIsBoolean()
    ensures forall fo :: fo in SignalFields ==> (fo.valueType == Boolean <==> fo.value == ReturningVisitor)
    ensures forall fo :: fo in SignalFields ==> fo.valueType != Text
  {
  }

  /** The position of an operator in Operators. */
  function OperatorIndex(o: Operator): nat {
    match o
    case Eq => 0
    case Ne => 1
    case In => 2
    case Nin => 3
    case Contains => 4
    case Gt => 5
    case Lt => 6
    case Gte => 7
    case Lte => 8
  }

  /** Operators lists every OperatorType exactly once. */
  lemma OperatorsListEachOperatorOnce(o: Operator)
    ensures |Operators| == |AllOperators|
    ensures OperatorIndex(o) < |Operators| && Operators[OperatorIndex(o)].value == o
    ensures forall i :: 0 <= i < |Operators| && Operators[i].value == o ==> i == OperatorIndex(o)
  {
  }
}
