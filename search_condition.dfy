/** IGCSearchCondition: one leaf of a search's criteria, compiled to a JSON object. */
module SearchConditions {
  import opened Wrappers
  import opened Json

  /** The four fields of a condition; a Java null is None. */
  datatype Condition = Condition(
    property: Option<string>,
    operator: Option<string>,
    value: Option<string>,
    negated: Option<bool>)

  /** new IGCSearchCondition(property, operator, value): negated stays null. */
  function WithValue(property: Option<string>, operator: Option<string>, value: Option<string>): (c: Condition)
    ensures c.property == property && c.operator == operator && c.value == value
    ensures c.negated.None?
  {
    Condition(property, operator, value, None)
  }

  /** new IGCSearchCondition(property, operator, negated): value stays null. */
  function WithNegation(property: Option<string>, operator: Option<string>, negated: Option<bool>): (c: Condition)
    ensures c.property == property && c.operator == operator && c.negated == negated
    ensures c.value.None?
  {
    Condition(property, operator, None, negated)
  }

  /** new IGCSearchCondition(property, operator, value, negated). */
  function WithValueAndNegation(property: Option<string>, operator: Option<string>,
                                value: Option<string>, negated: Option<bool>): (c: Condition)
    ensures c.property == property && c.operator == operator
    ensures c.value == value && c.negated == negated
  {
    Condition(property, operator, value, negated)
  }

  /** The keys a compiled condition carries. */
  function ConditionKeys(c: Condition): set<string> {
    {"property", "operator"}
    + (if c.value.Some? then {"value"} else {})
    + (if c.negated.Some? then {"negated"} else {})
  }

  /** getConditionObject(): "property" and "operator" always, "value" and
      "negated" only when they are not null. */
  function ConditionObject(c: Condition): (r: Json)
    ensures r.Obj? && r.fields.Keys == ConditionKeys(c)
    ensures r.fields["property"] == TextNode(c.property)
    ensures r.fields["operator"] == TextNode(c.operator)
    ensures "value" in r.fields <==> c.value.Some?
    ensures c.value.Some? ==> r.fields["value"] == Str(c.value.value)
    ensures "negated" in r.fields <==> c.negated.Some?
    ensures c.negated.Some? ==> r.fields["negated"] == Bool(c.negated.value)
  {
    var base := map["property" := TextNode(c.property), "operator" := TextNode(c.operator)];
    var withValue := if c.value.Some? then base["value" := Str(c.value.value)] else base;
    Obj(if c.negated.Some? then withValue["negated" := Bool(c.negated.value)] else withValue)
  }

  /** The compiled object determines the condition: nothing is lost in compiling. */
  lemma ConditionObjectInjective(c1: Condition, c2: Condition)
    requires ConditionObject(c1) == ConditionObject(c2)
    ensures c1 == c2
  {
    var f1, f2 := ConditionObject(c1).fields, ConditionObject(c2).fields;
    assert TextNode(c1.property) == f1["property"] == f2["property"] == TextNode(c2.property);
    assert TextNode(c1.operator) == f1["operator"] == f2["operator"] == TextNode(c2.operator);
    if c1.value.Some? {
      assert f1["value"] == f2["value"];
    }
    if c1.negated.Some? {
      assert f1["negated"] == f2["negated"];
    }
  }

  /** A condition built with a value never carries "negated". */
  lemma WithValueHasNoNegated(property: Option<string>, operator: Option<string>, value: Option<string>)
    ensures "negated" !in ConditionObject(WithValue(property, operator, value)).fields
    ensures ConditionObject(WithValue(property, operator, value)).fields.Keys <= {"property", "operator", "value"}
  {
  }

  /** A condition built with a negation flag never carries "value". */
  lemma WithNegationHasNoValue(property: Option<string>, operator: Option<string>, negated: Option<bool>)
    ensures "value" !in ConditionObject(WithNegation(property, operator, negated)).fields
    ensures ConditionObject(WithNegation(property, operator, negated)).fields.Keys <= {"property", "operator", "negated"}
  {
  }
}
