/** The filter compiler: JSON definitions of any depth to SQL conditions. */
module FilterCompiler {
  import opened Wrappers
  import opened FilterModel

  /** The model's columns, and Python's `str` of a JSON value that is not a string. */
  datatype Schema = Schema(columns: set<string>, str: Json -> string)
  {
    function Pattern(value: Json): string {
      "%" + (if value.JText? then value.s else str(value)) + "%"
    }
  }

  datatype FilterError =
    | NotAnObject
    | MissingOperator
    | UnknownField
    | UnknownOperator
    | BadOperand
    | BadRange
    | MissingConditions
    | UnknownGroupOperator
    | ConditionsNotAList

  type Compiled = Result<Cond, FilterError>

  // ---- One condition ----

  /** A JSON value a comparison can bind. */
  function CellOf(value: Json): Option<Cell> {
    match value
    case JNull => Some(Null)
    case JBool(b) => Some(Flag(b))
    case JNumber(n) => Some(Number(n))
    case JText(s) => Some(Text(s))
    case _ => None
  }

  /** A value ordering operators accept: SQLAlchemy refuses NULL and booleans there. */
  predicate Orderable(value: Json) {
    value.JNumber? || value.JText?
  }

  function CellsOf(values: seq<Json>): (cells: Option<seq<Cell>>)
    ensures cells.Some? <==> forall v :: v in values ==> CellOf(v).Some?
    ensures cells.Some? ==> |cells.value| == |values|
    ensures cells.Some? ==> forall i :: 0 <= i < |values| ==> CellOf(values[i]) == Some(cells.value[i])
  {
    if values == [] then Some([])
    else
      var rest := CellsOf(values[1..]);
      assert forall v :: v in values <==> v == values[0] || v in values[1..];
      if CellOf(values[0]).Some? && rest.Some? then Some([CellOf(values[0]).value] + rest.value) else None
  }

  /** `in` and `not_in` wrap a value that is not a list. */
  function AsList(value: Json): seq<Json> {
    if value.JList? then value.items else [value]
  }

  function Ordering(column: string, cmp: Comparison, value: Json): Compiled {
    if Orderable(value) then Ok(Compare(column, cmp, CellOf(value).value)) else Err(BadOperand)
  }

  /** `apply_filter_condition`. */
  function ApplyFilterCondition(schema: Schema, field: Json, op: Json, value: Json): Compiled {
    if !(field.JText? && field.s in schema.columns) then Err(UnknownField)
    else if !op.JText? then Err(UnknownOperator)
    else
      var column, name := field.s, op.s;
      if name == "eq" then
        if value == JNull then Ok(IsNull(column))
        else if CellOf(value).Some? then Ok(Compare(column, Same, CellOf(value).value))
        else Err(BadOperand)
      else if name == "neq" then
        if value == JNull then Ok(IsNotNull(column))
        else if CellOf(value).Some? then Ok(Compare(column, Differs, CellOf(value).value))
        else Err(BadOperand)
      else if name == "contains" then Ok(TextLike(column, schema.Pattern(value)))
      else if name == "not_contains" then Ok(Not(TextLike(column, schema.Pattern(value))))
      else if name == "gt" then Ordering(column, Above, value)
      else if name == "lt" then Ordering(column, Below, value)
      else if name == "gte" then Ordering(column, AtLeast, value)
      else if name == "lte" then Ordering(column, AtMost, value)
      else if name == "in" then
        if CellsOf(AsList(value)).Some? then Ok(InList(column, CellsOf(AsList(value)).value)) else Err(BadOperand)
      else if name == "not_in" then
        if CellsOf(AsList(value)).Some? then Ok(Not(InList(column, CellsOf(AsList(value)).value)))
        else Err(BadOperand)
      else if name == "is_empty" then Ok(Or([IsNull(column), Compare(column, Same, Text(""))]))
      else if name == "is_not_empty" then Ok(And([IsNotNull(column), Compare(column, Differs, Text(""))]))
      else if name == "between" then
        if !(value.JList? && |value.items| == 2) then Err(BadRange)
        else if !(Orderable(value.items[0]) && Orderable(value.items[1])) then Err(BadOperand)
        else Ok(And([Compare(column, AtLeast, CellOf(value.items[0]).value),
                     Compare(column, AtMost, CellOf(value.items[1]).value)]))
      else Err(UnknownOperator)
  }

  /** Why a condition is refused: its field, then its operator, then what it compares with. */
  lemma WhyLeavesFail(schema: Schema, field: Json, op: Json, value: Json)
    ensures var names := {"eq", "neq", "contains", "not_contains", "gt", "lt", "gte", "lte", "in", "not_in",
                          "is_empty", "is_not_empty", "between"};
      var compiled := ApplyFilterCondition(schema, field, op, value);
      var known := field.JText? && field.s in schema.columns;
      && (compiled == Err(UnknownField) <==> !known)
      && (compiled == Err(UnknownOperator) <==> known && !(op.JText? && op.s in names))
      && (compiled == Err(BadRange) <==>
            known && op == JText("between") && !(value.JList? && |value.items| == 2))
      && (compiled.Err? ==> compiled.error in {UnknownField, UnknownOperator, BadRange, BadOperand})
  {
  }

  // ---- The shape of a definition ----

  datatype Shape =
    | Malformed(error: FilterError)
    | Leaf(field: Json, op: Json, value: Json)
    | Legacy(specs: seq<Field>)
    | Group(isOr: bool, items: seq<Json>)

  predicate NamesOperator(spec: Json) {
    spec.JObject? && (Get(spec.fields, "op").Some? || Get(spec.fields, "operator").Some?)
  }

  /** `_looks_like_legacy_filter_mapping`: every value is an object that names an operator. */
  predicate LooksLegacy(fields: seq<Field>) {
    fields != [] && forall f :: f in fields ==> NamesOperator(f.value)
  }

  /** The items are parts of `parent`. */
  ghost predicate Within(items: seq<Json>, parent: Json) {
    forall item :: item in items ==> item < parent
  }

  /** Which branch of `parse_filter_group` a definition takes. */
  function ShapeOf(def: Json): (shape: Shape)
    ensures shape.Group? ==> Within(shape.items, def)
  {
    if !def.JObject? then Malformed(NotAnObject)
    else
      var get := (key: string) => Get(def.fields, key);
      if get("field").Some? then
        if get("op").None? then Malformed(MissingOperator)
        else Leaf(get("field").value, get("op").value, OrNull(get("value")))
      else if LooksLegacy(def.fields) then Legacy(def.fields)
      else if get("conditions").None? then Malformed(MissingConditions)
      else
        var operator := if get("operator").Some? then get("operator").value else JText("and");
        if operator != JText("and") && operator != JText("or") then Malformed(UnknownGroupOperator)
        else
          var conditions := get("conditions").value;
          if !conditions.JList? then Malformed(ConditionsNotAList)
          else
            assert Field("conditions", conditions) in def.fields;
            Group(operator == JText("or"), conditions.items)
  }

  /** The documented ways to write a condition and a group; "and" is the default. */
  lemma DocumentedShapes(field: Json, op: Json, value: Json, items: seq<Json>)
    ensures ShapeOf(JObject([Field("field", field), Field("op", op), Field("value", value)])) == Leaf(field, op, value)
    ensures ShapeOf(JObject([Field("operator", JText("and")), Field("conditions", JList(items))])) == Group(false, items)
    ensures ShapeOf(JObject([Field("operator", JText("or")), Field("conditions", JList(items))])) == Group(true, items)
    ensures ShapeOf(JObject([Field("conditions", JList(items))])) == Group(false, items)
  {
    var ops, last := [Field("op", op), Field("value", value)], [Field("value", value)];
    var leaf := [Field("field", field), Field("op", op), Field("value", value)];
    assert leaf == [leaf[0]] + ops && ops == [ops[0]] + last && last == [last[0]] + [];
    GetOf(leaf[0], ops, "field");
    GetOf(leaf[0], ops, "op");
    GetOf(leaf[0], ops, "value");
    GetOf(ops[0], last, "op");
    GetOf(ops[0], last, "value");
    GetOf(last[0], [], "value");
    GroupShape(JText("and"), items);
    GroupShape(JText("or"), items);
  }

  lemma GetOf(first: Field, rest: seq<Field>, key: string)
    ensures Get([first] + rest, key) == if first.key == key then Some(first.value) else Get(rest, key)
  {
    assert ([first] + rest)[1..] == rest;
  }

  lemma GroupShape(operator: Json, items: seq<Json>)
    requires operator == JText("and") || operator == JText("or")
    ensures ShapeOf(JObject([Field("operator", operator), Field("conditions", JList(items))]))
      == Group(operator == JText("or"), items)
    ensures ShapeOf(JObject([Field("conditions", JList(items))])) == Group(false, items)
  {
    var plain := [Field("conditions", JList(items))];
    var group := [Field("operator", operator), Field("conditions", JList(items))];
    assert plain == [plain[0]] + [] && group == [group[0]] + plain;
    forall key | key in {"field", "operator", "conditions"}
      ensures Get(plain, key) == if key == "conditions" then Some(JList(items)) else None
      ensures Get(group, key) == if key == "operator" then Some(operator) else Get(plain, key)
    {
      GetOf(plain[0], [], key);
      GetOf(group[0], plain, key);
    }
    assert !NamesOperator(plain[0].value) && plain[0] in plain && !NamesOperator(group[0].value) && group[0] in group;
  }

  /** An old mapping of columns to operators is read as one, unless one of its columns is called "field". */
  lemma LegacyIffNoFieldColumn(fields: seq<Field>)
    requires LooksLegacy(fields)
    ensures ShapeOf(JObject(fields)) == Legacy(fields) <==> Get(fields, "field").None?
  {
  }

  /** An object that is neither a condition nor an old mapping is a group exactly if it says so properly. */
  lemma GroupsAreRecognized(fields: seq<Field>)
    requires Get(fields, "field").None? && !LooksLegacy(fields)
    ensures var operator, conditions := Get(fields, "operator"), Get(fields, "conditions");
      ShapeOf(JObject(fields)).Group? <==>
        && conditions.Some? && conditions.value.JList?
        && (operator.None? || operator == Some(JText("and")) || operator == Some(JText("or")))
    ensures ShapeOf(JObject(fields)).Malformed? || ShapeOf(JObject(fields)).Group?
    ensures var operator, conditions := Get(fields, "operator"), Get(fields, "conditions");
      && (conditions.None? ==> ShapeOf(JObject(fields)) == Malformed(MissingConditions))
      && (conditions.Some? && ShapeOf(JObject(fields)).Malformed? ==>
            ShapeOf(JObject(fields)).error ==
              if operator.None? || operator.value == JText("and") || operator.value == JText("or")
              then ConditionsNotAList else UnknownGroupOperator)
  {
  }

  /** A value that is not an object is never a definition. */
  lemma OnlyObjectsAreDefinitions(schema: Schema, def: Json)
    requires !def.JObject?
    ensures Parsed(schema, def) == Err(NotAnObject)
  {
  }

  /** Whatever the other keys, an object with a field is one condition, and never a group. */
  lemma FieldMakesALeaf(fields: seq<Field>)
    requires Get(fields, "field").Some?
    ensures var shape := ShapeOf(JObject(fields));
      if Get(fields, "op").Some? then shape.Leaf? else shape == Malformed(MissingOperator)
  {
  }

  function OrNull(value: Option<Json>): Json {
    if value.Some? then value.value else JNull
  }

  /** `spec.get("op") or spec.get("operator")`. */
  function LegacyOperator(spec: seq<Field>): Json {
    var op := OrNull(Get(spec, "op"));
    if Truthy(op) then op else OrNull(Get(spec, "operator"))
  }

  function CompileLegacy(schema: Schema, spec: Field): Compiled
    requires spec.value.JObject?
  {
    var op := LegacyOperator(spec.value.fields);
    if !Truthy(op) then Err(MissingOperator)
    else ApplyFilterCondition(schema, JText(spec.key), op, OrNull(Get(spec.value.fields, "value")))
  }

  lemma GetsOfTwo(first: Field, second: Field, key: string)
    ensures Get([first, second], key) ==
      if first.key == key then Some(first.value) else if second.key == key then Some(second.value) else None
  {
    assert [first, second][1..] == [second] && [second][1..] == [];
  }

  lemma GetsOfThree(first: Field, second: Field, third: Field, key: string)
    ensures Get([first, second, third], key) ==
      if first.key == key then Some(first.value) else Get([second, third], key)
  {
    assert [first, second, third][1..] == [second, third];
  }

  /** An old condition names its operator as `operator` or as `op`. */
  lemma LegacyCondition(schema: Schema, field: string, key: string, name: string, value: Json)
    requires name != "" && (key == "op" || key == "operator")
    ensures CompileLegacy(schema, Field(field, JObject([Field(key, JText(name)), Field("value", value)])))
      == ApplyFilterCondition(schema, JText(field), JText(name), value)
  {
    var named, valued := Field(key, JText(name)), Field("value", value);
    GetsOfTwo(named, valued, "op");
    GetsOfTwo(named, valued, "operator");
    GetsOfTwo(named, valued, "value");
  }

  /** If it has both, `op` wins, unless that is empty. */
  lemma LegacyOpWins(schema: Schema, field: string, op: string, operator: string, value: Json)
    requires operator != ""
    ensures CompileLegacy(schema, Field(field, JObject(
        [Field("op", JText(op)), Field("operator", JText(operator)), Field("value", value)])))
      == ApplyFilterCondition(schema, JText(field), JText(if op != "" then op else operator), value)
  {
    var first, second, third := Field("op", JText(op)), Field("operator", JText(operator)), Field("value", value);
    forall key | key in {"op", "operator", "value"}
      ensures Get([first, second, third], key) == if first.key == key then Some(first.value) else Get([second, third], key)
      ensures Get([second, third], key) ==
        if second.key == key then Some(second.value) else if third.key == key then Some(third.value) else None
    {
      GetsOfThree(first, second, third, key);
      GetsOfTwo(second, third, key);
    }
  }

  // ---- Whole definitions ----

  type Parse = Result<Option<Cond>, FilterError>

  type Conditions = Result<seq<Cond>, FilterError>

  function After(parsed: seq<Cond>, rest: Conditions): Conditions {
    if rest.Err? then rest else Ok(parsed + rest.value)
  }

  /** What collecting `parts` returns: no condition when none is left, else one joining them. */
  function Joined(isOr: bool, parts: Conditions): Parse {
    if parts.Err? then Err(parts.error)
    else if parts.value == [] then Ok(None)
    else Ok(Some(if isOr then Or(parts.value) else And(parts.value)))
  }

  function CompileSpecs(schema: Schema, specs: seq<Field>): Conditions
    requires forall f :: f in specs ==> NamesOperator(f.value)
  {
    if specs == [] then Ok([])
    else
      assert NamesOperator(specs[0].value);
      var first := CompileLegacy(schema, specs[0]);
      if first.Err? then Err(first.error)
      else After([first.value], CompileSpecs(schema, specs[1..]))
  }

  /** The conditions of a group's items; an item without a single leaf leaves none. */
  function ParsedItems(schema: Schema, parent: Json, items: seq<Json>): Conditions
    requires Within(items, parent)
    decreases parent, 0, |items|
  {
    if items == [] then Ok([])
    else
      assert items[0] in items && forall item :: item in items[1..] ==> item in items;
      var first := Parsed(schema, items[0]);
      if first.Err? then Err(first.error)
      else After(if first.value.Some? then [first.value.value] else [], ParsedItems(schema, parent, items[1..]))
  }

  /** What `parse_filter_group` returns. */
  function Parsed(schema: Schema, def: Json): Parse
    decreases def, 1
  {
    match ShapeOf(def)
    case Malformed(error) => Err(error)
    case Leaf(field, op, value) =>
      var compiled := ApplyFilterCondition(schema, field, op, value);
      if compiled.Err? then Err(compiled.error) else Ok(Some(compiled.value))
    case Legacy(specs) => Joined(false, CompileSpecs(schema, specs))
    case Group(isOr, items) => Joined(isOr, ParsedItems(schema, def, items))
  }

  /** `_parse_legacy_filter_mapping`, collecting its list in a loop. */
  method ParseLegacyFilterMapping(schema: Schema, specs: seq<Field>) returns (result: Parse)
    requires forall f :: f in specs ==> NamesOperator(f.value)
    ensures result == Joined(false, CompileSpecs(schema, specs))
  {
    var parsed := [];
    assert specs[0..] == specs;
    AfterNothing([], CompileSpecs(schema, specs));
    for i := 0 to |specs|
      invariant CompileSpecs(schema, specs) == After(parsed, CompileSpecs(schema, specs[i..]))
    {
      assert NamesOperator(specs[i].value) && specs[i..][1..] == specs[i + 1..];
      var condition := CompileLegacy(schema, specs[i]);
      if condition.Err? {
        return Err(condition.error);
      }
      AfterAfter(parsed, [condition.value], CompileSpecs(schema, specs[i + 1..]));
      parsed := parsed + [condition.value];
    }
    AfterNothing(parsed, Ok([]));
    return if parsed == [] then Ok(None) else Ok(Some(And(parsed)));
  }

  lemma AfterNothing(parsed: seq<Cond>, rest: Conditions)
    ensures After([], rest) == rest
    ensures After(parsed, Ok([])) == Ok(parsed)
  {
    assert parsed + [] == parsed;
    if rest.Ok? { assert [] + rest.value == rest.value; }
  }

  lemma AfterAfter(parsed: seq<Cond>, next: seq<Cond>, rest: Conditions)
    ensures After(parsed, After(next, rest)) == After(parsed + next, rest)
  {
    if rest.Ok? { assert parsed + (next + rest.value) == parsed + next + rest.value; }
  }

  /** `parse_filter_group`, collecting the conditions of a group in a loop. */
  method ParseFilterGroup(schema: Schema, def: Json) returns (result: Parse)
    ensures result == Parsed(schema, def)
    decreases def, 1
  {
    match ShapeOf(def) {
      case Malformed(error) =>
        return Err(error);
      case Leaf(field, op, value) =>
        var compiled := ApplyFilterCondition(schema, field, op, value);
        return if compiled.Err? then Err(compiled.error) else Ok(Some(compiled.value));
      case Legacy(specs) =>
        result := ParseLegacyFilterMapping(schema, specs);
      case Group(isOr, items) =>
        var parts := ParseItems(schema, def, items);
        return Joined(isOr, parts);
    }
  }

  lemma ItemsFrom(schema: Schema, parent: Json, items: seq<Json>, i: nat)
    requires i < |items|
    requires Within(items, parent)
    ensures items[i] < parent
    ensures Within(items[i..], parent) && Within(items[i + 1..], parent)
    ensures ParsedItems(schema, parent, items[i..]) ==
      var first := Parsed(schema, items[i]);
      if first.Err? then Err(first.error)
      else After(if first.value.Some? then [first.value.value] else [], ParsedItems(schema, parent, items[i + 1..]))
  {
    assert items[i] in items && items[i..][1..] == items[i + 1..];
    assert forall item :: item in items[i..] ==> item in items;
    var rest := items[i + 1..];
    assert forall item :: item in rest ==> item in items;
  }

  lemma {:induction false} FirstErrorFrom(schema: Schema, parent: Json, items: seq<Json>, k: nat, i: nat)
    requires Within(items, parent) && k <= i < |items| && Parsed(schema, items[i]).Err?
    requires forall j :: 0 <= j < i ==> Parsed(schema, items[j]).Ok?
    ensures Within(items[k..], parent)
    ensures ParsedItems(schema, parent, items[k..]) == Err(Parsed(schema, items[i]).error)
    decreases i - k
  {
    ItemsFrom(schema, parent, items, k);
    if k < i { FirstErrorFrom(schema, parent, items, k + 1, i); }
  }

  /** A group fails with the error of the first of its items that fails. */
  lemma FirstErrorWins(schema: Schema, parent: Json, items: seq<Json>, i: nat)
    requires Within(items, parent) && i < |items| && Parsed(schema, items[i]).Err?
    requires forall j :: 0 <= j < i ==> Parsed(schema, items[j]).Ok?
    ensures ParsedItems(schema, parent, items) == Err(Parsed(schema, items[i]).error)
  {
    FirstErrorFrom(schema, parent, items, 0, i);
    assert items[0..] == items;
  }

  /** The loop of `parse_filter_group` over the conditions of one group. */
  method ParseItems(schema: Schema, parent: Json, items: seq<Json>) returns (result: Conditions)
    requires Within(items, parent)
    ensures result == ParsedItems(schema, parent, items)
    decreases parent, 0
  {
    var parsed := [];
    assert items[0..] == items;
    AfterNothing([], ParsedItems(schema, parent, items));
    for i := 0 to |items|
      invariant Within(items[i..], parent)
      invariant ParsedItems(schema, parent, items) == After(parsed, ParsedItems(schema, parent, items[i..]))
    {
      ItemsFrom(schema, parent, items, i);
      var item := ParseFilterGroup(schema, items[i]);
      if item.Err? {
        return Err(item.error);
      }
      var next := if item.value.Some? then [item.value.value] else [];
      AfterAfter(parsed, next, ParsedItems(schema, parent, items[i + 1..]));
      parsed := parsed + next;
    }
    AfterNothing(parsed, Ok([]));
    return Ok(parsed);
  }

  /** A query: the rows that every WHERE condition keeps. */
  datatype Query = Query(wheres: seq<Cond>)
  {
    ghost predicate Returns(db: Database, row: Row) {
      forall c :: c in wheres ==> Kept(db, c, row)
    }
  }

  /** The query a definition leaves: a missing or empty one filters nothing. */
  function Filtered(query: Query, schema: Schema, filters: Option<Json>): Result<Query, FilterError> {
    if filters.None? || !Truthy(filters.value) then Ok(query)
    else
      var parsed := Parsed(schema, filters.value);
      if parsed.Err? then Err(parsed.error)
      else if parsed.value.None? then Ok(query)
      else Ok(Query(query.wheres + [parsed.value.value]))
  }

  /** Of the values that are not objects, Python's false ones filter nothing and the others are refused. */
  lemma FalseFiltersNothing(query: Query, schema: Schema, filters: Json)
    requires !filters.JObject?
    ensures Filtered(query, schema, Some(filters)) ==
      if filters in {JNull, JBool(false), JNumber(0), JText(""), JList([])} then Ok(query) else Err(NotAnObject)
    ensures Filtered(query, schema, None) == Ok(query) && Filtered(query, schema, Some(JObject([]))) == Ok(query)
  {
  }

  /** `apply_filters_to_query`. */
  method ApplyFiltersToQuery(query: Query, schema: Schema, filters: Option<Json>)
    returns (result: Result<Query, FilterError>)
    ensures result == Filtered(query, schema, filters)
  {
    if filters.None? || !Truthy(filters.value) {
      return Ok(query);
    }
    var condition := ParseFilterGroup(schema, filters.value);
    if condition.Err? {
      return Err(condition.error);
    }
    result := Ok(query);
    if condition.value.Some? {
      result := Ok(Query(query.wheres + [condition.value.value]));
    }
  }
}
