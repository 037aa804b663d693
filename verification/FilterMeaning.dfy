/** What filters mean to the people who write them, and that compilation preserves it. */
module FilterMeaning {
  import opened Wrappers
  import opened TextMatching
  import opened FilterModel
  import opened FilterCompiler

  // ---- The direct reading: no SQL, no third truth value ----

  /** The JSON value that stands for a cell. */
  ghost function JsonOf(cell: Cell): Json {
    match cell
    case Null => JNull
    case Number(n) => JNumber(n)
    case Text(s) => JText(s)
    case Flag(b) => JBool(b)
  }

  /** A value a comparison can bind: no list, no object. */
  ghost predicate Bindable(value: Json) {
    value.JNull? || value.JBool? || value.JNumber? || value.JText?
  }

  /** A list as it is; a single value stands for the list of itself. */
  ghost function Listing(value: Json): seq<Json> {
    match value
    case JList(items) => items
    case _ => [value]
  }

  /** A value that has an order. */
  ghost predicate Ordered(value: Json) {
    match value
    case JNumber(_) => true
    case JText(_) => true
    case _ => false
  }

  /** The operators there are, and the values each one takes. */
  ghost predicate Accepts(op: string, value: Json) {
    match op
    case "eq" => Bindable(value)
    case "neq" => Bindable(value)
    case "contains" => true
    case "not_contains" => true
    case "gt" => Ordered(value)
    case "lt" => Ordered(value)
    case "gte" => Ordered(value)
    case "lte" => Ordered(value)
    case "in" => forall v :: v in Listing(value) ==> Bindable(v)
    case "not_in" => forall v :: v in Listing(value) ==> Bindable(v)
    case "is_empty" => true
    case "is_not_empty" => true
    case "between" => value.JList? && |value.items| == 2 && Ordered(value.items[0]) && Ordered(value.items[1])
    case _ => false
  }

  /** The cell comes before the value, in the order of the database. */
  ghost predicate Before(db: Database, cell: Cell, value: Json) {
    match value
    case JNumber(n) => db.below(cell, Number(n))
    case JText(s) => db.below(cell, Text(s))
    case _ => false
  }

  ghost predicate Behind(db: Database, cell: Cell, value: Json) {
    match value
    case JNumber(n) => db.below(Number(n), cell)
    case JText(s) => db.below(Text(s), cell)
    case _ => false
  }

  /** Whether one condition keeps a cell. A NULL cell passes only tests for absence. */
  ghost predicate Passes(db: Database, schema: Schema, cell: Cell, op: string, value: Json)
    requires Accepts(op, value)
  {
    var same := JsonOf(cell) == value;
    match op
    case "eq" => same
    case "neq" => cell != Null && !same
    case "contains" => cell != Null && db.Matches(cell, schema.Pattern(value))
    case "not_contains" => cell != Null && !db.Matches(cell, schema.Pattern(value))
    case "gt" => cell != Null && Behind(db, cell, value)
    case "lt" => cell != Null && Before(db, cell, value)
    case "gte" => cell != Null && (same || Behind(db, cell, value))
    case "lte" => cell != Null && (same || Before(db, cell, value))
    case "in" => cell != Null && JsonOf(cell) in Listing(value)
    case "not_in" =>
      Listing(value) == [] || (cell != Null && JsonOf(cell) !in Listing(value) && JNull !in Listing(value))
    case "is_empty" => cell == Null || cell == Text("")
    case "is_not_empty" => !(cell == Null || cell == Text(""))
    case _ =>
      var low, high := value.items[0], value.items[1];
      cell != Null && (JsonOf(cell) == low || Behind(db, cell, low)) && (JsonOf(cell) == high || Before(db, cell, high))
  }

  ghost predicate LeafOk(schema: Schema, field: Json, op: Json, value: Json) {
    field.JText? && field.s in schema.columns && op.JText? && Accepts(op.s, value)
  }

  ghost predicate LeafKeeps(db: Database, schema: Schema, field: Json, op: Json, value: Json, row: Row)
    requires LeafOk(schema, field, op, value)
  {
    Passes(db, schema, CellAt(row, field.s), op.s, value)
  }

  /** A definition the compiler accepts, and only those. */
  ghost predicate WellFormed(schema: Schema, def: Json)
    decreases def
  {
    match ShapeOf(def)
    case Malformed(_) => false
    case Leaf(field, op, value) => LeafOk(schema, field, op, value)
    case Legacy(specs) => forall f :: f in specs ==> SpecOk(schema, f)
    case Group(_, items) => forall item :: item in items ==> item < def && WellFormed(schema, item)
  }

  ghost predicate SpecOk(schema: Schema, f: Field) {
    f.value.JObject? && Truthy(LegacyOperator(f.value.fields))
    && LeafOk(schema, JText(f.key), LegacyOperator(f.value.fields), OrNull(Get(f.value.fields, "value")))
  }

  ghost predicate SpecKeeps(db: Database, schema: Schema, f: Field, row: Row)
    requires SpecOk(schema, f)
  {
    LeafKeeps(db, schema, JText(f.key), LegacyOperator(f.value.fields), OrNull(Get(f.value.fields, "value")), row)
  }

  /** Some condition is left in the definition once empty groups are pruned. */
  ghost predicate HasLeaf(def: Json)
    decreases def
  {
    match ShapeOf(def)
    case Malformed(_) => false
    case Leaf(_, _, _) => true
    case Legacy(_) => true
    case Group(_, items) => exists item :: item in items && item < def && HasLeaf(item)
  }

  /** Whether the definition keeps a row; groups without leaves have no say. */
  ghost predicate Keeps(db: Database, schema: Schema, def: Json, row: Row)
    requires WellFormed(schema, def)
    decreases def
  {
    match ShapeOf(def)
    case Malformed(_) => false
    case Leaf(field, op, value) => LeafKeeps(db, schema, field, op, value, row)
    case Legacy(specs) => forall f :: f in specs ==> SpecKeeps(db, schema, f, row)
    case Group(isOr, items) =>
      if isOr then exists item :: item in items && HasLeaf(item) && Keeps(db, schema, item, row)
      else forall item :: item in items && HasLeaf(item) ==> Keeps(db, schema, item, row)
  }

  // ---- Leaves ----

  lemma LeafCompiles(schema: Schema, field: Json, op: Json, value: Json)
    ensures ApplyFilterCondition(schema, field, op, value).Ok? <==> LeafOk(schema, field, op, value)
  {
    forall v { BindsItsCell(v, Null); }
    assert AsList(value) == Listing(value);
  }

  /** Binding a value loses nothing: exactly the cell it stands for is equal to it. */
  lemma BindsItsCell(value: Json, cell: Cell)
    ensures CellOf(value) == Some(cell) <==> value == JsonOf(cell)
    ensures CellOf(value).Some? <==> Bindable(value)
  {
  }

  /** `x IN (...)` over the bound values decides membership among the JSON ones. */
  lemma BoundMembership(cell: Cell, values: seq<Json>)
    requires CellsOf(values).Some?
    ensures cell in CellsOf(values).value <==> JsonOf(cell) in values
  {
    var cells := CellsOf(values).value;
    if cell in cells {
      var i :| 0 <= i < |cells| && cells[i] == cell;
      BindsItsCell(values[i], cell);
      assert values[i] in values;
    }
    if JsonOf(cell) in values {
      var i :| 0 <= i < |values| && values[i] == JsonOf(cell);
      BindsItsCell(values[i], cell);
      assert cells[i] in cells;
    }
  }

  /** The operators that compile to a list test, a negation or a pair of conditions. */
  lemma CompoundLeafMeans(db: Database, schema: Schema, column: string, op: string, value: Json, row: Row)
    requires LeafOk(schema, JText(column), JText(op), value)
    requires op in {"in", "not_in", "not_contains", "is_empty", "is_not_empty", "between"}
    ensures ApplyFilterCondition(schema, JText(column), JText(op), value).Ok?
    ensures Kept(db, ApplyFilterCondition(schema, JText(column), JText(op), value).value, row)
      <==> Passes(db, schema, CellAt(row, column), op, value)
  {
    var cell := CellAt(row, column);
    if op == "in" || op == "not_in" {
      assert AsList(value) == Listing(value);
      var values := CellsOf(AsList(value)).value;
      InDecides(db, cell, values);
      var list := InList(column, values);
      assert Kept(db, list, row) <==> InK(db, cell, values) == True;
      assert Kept(db, Not(list), row) <==> InK(db, cell, values) == False by {
        assert Eval(db, Not(list), row) == NotK(InK(db, cell, values));
      }
      BoundMembership(cell, AsList(value));
      BoundMembership(Null, AsList(value));
    } else if op == "not_contains" {
      var like := TextLike(column, schema.Pattern(value));
      assert Eval(db, Not(like), row) == NotK(Eval(db, like, row));
    } else if op == "is_empty" {
      EitherKept(db, IsNull(column), Compare(column, Same, Text("")), row);
    } else if op == "is_not_empty" {
      BothKept(db, IsNotNull(column), Compare(column, Differs, Text("")), row);
    } else {
      BothKept(db, Compare(column, AtLeast, CellOf(value.items[0]).value),
               Compare(column, AtMost, CellOf(value.items[1]).value), row);
    }
  }

  lemma LeafMeans(db: Database, schema: Schema, field: Json, op: Json, value: Json, row: Row)
    requires LeafOk(schema, field, op, value)
    ensures ApplyFilterCondition(schema, field, op, value).Ok?
    ensures Kept(db, ApplyFilterCondition(schema, field, op, value).value, row)
      <==> LeafKeeps(db, schema, field, op, value, row)
  {
    if op.s in {"in", "not_in", "not_contains", "is_empty", "is_not_empty", "between"} {
      CompoundLeafMeans(db, schema, field.s, op.s, value, row);
    }
  }

  /** The compiled condition keeps the row. */
  ghost predicate Selects(db: Database, schema: Schema, column: string, op: string, value: Json, row: Row) {
    var compiled := ApplyFilterCondition(schema, JText(column), JText(op), value);
    compiled.Ok? && Kept(db, compiled.value, row)
  }

  lemma SelectsIffPasses(db: Database, schema: Schema, column: string, op: string, value: Json, row: Row)
    requires column in schema.columns && Accepts(op, value)
    ensures Selects(db, schema, column, op, value, row) <==> Passes(db, schema, CellAt(row, column), op, value)
  {
    LeafMeans(db, schema, JText(column), JText(op), value, row);
  }

  /** Equality with a number, a flag, a text and null, as a row shows it. */
  lemma EqualityMeans(db: Database, schema: Schema, column: string, n: int, b: bool, s: string, row: Row)
    requires column in schema.columns
    ensures var cell := CellAt(row, column);
      && (Selects(db, schema, column, "eq", JNumber(n), row) <==> cell == Number(n))
      && (Selects(db, schema, column, "eq", JBool(b), row) <==> cell == Flag(b))
      && (Selects(db, schema, column, "eq", JText(s), row) <==> cell == Text(s))
      && (Selects(db, schema, column, "eq", JNull, row) <==> cell == Null)
      && (Selects(db, schema, column, "neq", JNumber(n), row) <==> cell != Null && cell != Number(n))
      && (Selects(db, schema, column, "neq", JBool(b), row) <==> cell != Null && cell != Flag(b))
      && (Selects(db, schema, column, "neq", JText(s), row) <==> cell != Null && cell != Text(s))
      && (Selects(db, schema, column, "neq", JNull, row) <==> cell != Null)
  {
    forall value | value in {JNumber(n), JBool(b), JText(s), JNull}
      ensures Selects(db, schema, column, "eq", value, row) <==> Passes(db, schema, CellAt(row, column), "eq", value)
      ensures Selects(db, schema, column, "neq", value, row) <==> Passes(db, schema, CellAt(row, column), "neq", value)
    {
      SelectsIffPasses(db, schema, column, "eq", value, row);
      SelectsIffPasses(db, schema, column, "neq", value, row);
    }
  }

  /** How a number or a text is written in JSON. */
  ghost function Written(bound: Cell): Json
    requires bound.Number? || bound.Text?
  {
    if bound.Number? then JNumber(bound.n) else JText(bound.s)
  }

  /** Order, against a number or a text. */
  lemma OrderMeans(db: Database, schema: Schema, column: string, bound: Cell, row: Row)
    requires column in schema.columns && (bound.Number? || bound.Text?)
    ensures var cell, value := CellAt(row, column), Written(bound);
      && (Selects(db, schema, column, "gt", value, row) <==> cell != Null && db.below(bound, cell))
      && (Selects(db, schema, column, "lt", value, row) <==> cell != Null && db.below(cell, bound))
      && (Selects(db, schema, column, "gte", value, row) <==> cell != Null && (cell == bound || db.below(bound, cell)))
      && (Selects(db, schema, column, "lte", value, row) <==> cell != Null && (cell == bound || db.below(cell, bound)))
  {
    var value := Written(bound);
    SelectsIffPasses(db, schema, column, "gt", value, row);
    SelectsIffPasses(db, schema, column, "lt", value, row);
    SelectsIffPasses(db, schema, column, "gte", value, row);
    SelectsIffPasses(db, schema, column, "lte", value, row);
  }

  /** A range, both ends included. */
  lemma RangeMeans(db: Database, schema: Schema, column: string, low: Cell, high: Cell, row: Row)
    requires column in schema.columns && (low.Number? || low.Text?) && (high.Number? || high.Text?)
    ensures var cell, value := CellAt(row, column), JList([Written(low), Written(high)]);
      Selects(db, schema, column, "between", value, row) <==>
        cell != Null && (cell == low || db.below(low, cell)) && (cell == high || db.below(cell, high))
  {
    SelectsIffPasses(db, schema, column, "between", JList([Written(low), Written(high)]), row);
  }

  /** The JSON values of cells, one by one. */
  ghost predicate Represents(values: seq<Json>, cells: seq<Cell>) {
    |values| == |cells| && forall i :: 0 <= i < |cells| ==>
      match cells[i]
      case Null => values[i] == JNull
      case Number(n) => values[i] == JNumber(n)
      case Text(s) => values[i] == JText(s)
      case Flag(b) => values[i] == JBool(b)
  }

  /** Membership in a list of values. */
  lemma MembershipMeans(db: Database, schema: Schema, column: string, values: seq<Json>, cells: seq<Cell>, row: Row)
    requires column in schema.columns && Represents(values, cells)
    ensures var cell := CellAt(row, column);
      && (Selects(db, schema, column, "in", JList(values), row) <==> cell != Null && cell in cells)
      && (Selects(db, schema, column, "not_in", JList(values), row) <==>
            cells == [] || (cell != Null && cell !in cells && Null !in cells))
  {
    forall v | v in values ensures Bindable(v) {
      var i :| 0 <= i < |values| && values[i] == v;
      assert cells[i].Null? || cells[i].Number? || cells[i].Text? || cells[i].Flag?;
    }
    SelectsIffPasses(db, schema, column, "in", JList(values), row);
    SelectsIffPasses(db, schema, column, "not_in", JList(values), row);
    RepresentedMembers(values, cells, CellAt(row, column));
    RepresentedMembers(values, cells, Null);
  }

  /** A single value is a list of one. */
  lemma SingleMembershipMeans(db: Database, schema: Schema, column: string, n: int, row: Row)
    requires column in schema.columns
    ensures var cell := CellAt(row, column);
      && (Selects(db, schema, column, "in", JNumber(n), row) <==> cell == Number(n))
      && (Selects(db, schema, column, "not_in", JNumber(n), row) <==> cell != Null && cell != Number(n))
  {
    SelectsIffPasses(db, schema, column, "in", JNumber(n), row);
    SelectsIffPasses(db, schema, column, "not_in", JNumber(n), row);
  }

  lemma RepresentedMembers(values: seq<Json>, cells: seq<Cell>, cell: Cell)
    requires Represents(values, cells)
    ensures JsonOf(cell) in values <==> cell in cells
  {
    if cell in cells {
      var i :| 0 <= i < |cells| && cells[i] == cell;
      assert values[i] == JsonOf(cell);
    }
    if JsonOf(cell) in values {
      var i :| 0 <= i < |values| && values[i] == JsonOf(cell);
      assert cells[i] == cell;
    }
  }

  /** A value that is not a text is searched for as Python prints it. */
  lemma ContainsPrintsValues(schema: Schema, field: Json, value: Json)
    requires !value.JText?
    ensures forall op :: op in {"contains", "not_contains"} ==>
      ApplyFilterCondition(schema, field, JText(op), value)
        == ApplyFilterCondition(schema, field, JText(op), JText(schema.str(value)))
  {
  }

  /** The two emptiness tests are exact opposites, also on NULL; a comparison and its opposite are not. */
  lemma EmptinessIsTwoValued(db: Database, schema: Schema, field: string, row: Row)
    requires field in schema.columns
    ensures var empty := ApplyFilterCondition(schema, JText(field), JText("is_empty"), JNull).value;
      var notEmpty := ApplyFilterCondition(schema, JText(field), JText("is_not_empty"), JNull).value;
      && Eval(db, empty, row) != Unknown && Eval(db, notEmpty, row) == NotK(Eval(db, empty, row))
  {
    var cell := CellAt(row, field);
    var isNull, blank := IsNull(field), Compare(field, Same, Text(""));
    var notNull, notBlank := IsNotNull(field), Compare(field, Differs, Text(""));
    assert EvalAny(db, [isNull, blank], row) == OrK(Eval(db, isNull, row), EvalAny(db, [blank], row));
    assert EvalAny(db, [blank], row) == OrK(Eval(db, blank, row), False);
    assert EvalAll(db, [notNull, notBlank], row) == AndK(Eval(db, notNull, row), EvalAll(db, [notBlank], row));
    assert EvalAll(db, [notBlank], row) == AndK(Eval(db, notBlank, row), True);
  }

  /** A test and its negation disagree about the row. */
  ghost predicate Opposite(db: Database, schema: Schema, field: string, yes: string, no: string, value: Json, row: Row)
    requires LeafOk(schema, JText(field), JText(yes), value) && LeafOk(schema, JText(field), JText(no), value)
  {
    LeafCompiles(schema, JText(field), JText(yes), value);
    LeafCompiles(schema, JText(field), JText(no), value);
    Kept(db, ApplyFilterCondition(schema, JText(field), JText(yes), value).value, row)
      != Kept(db, ApplyFilterCondition(schema, JText(field), JText(no), value).value, row)
  }

  /**
   * A negative test is the opposite of the positive one exactly on the rows that have a value: both
   * drop every NULL row. Only a comparison with null itself is two-valued.
   */
  lemma NegationDropsNulls(db: Database, schema: Schema, field: string, value: Json, row: Row)
    requires field in schema.columns
    ensures Bindable(value) ==>
      (Opposite(db, schema, field, "eq", "neq", value, row) <==> value == JNull || CellAt(row, field) != Null)
    ensures Opposite(db, schema, field, "contains", "not_contains", value, row) <==> CellAt(row, field) != Null
  {
    if Bindable(value) {
      LeafMeans(db, schema, JText(field), JText("eq"), value, row);
      LeafMeans(db, schema, JText(field), JText("neq"), value, row);
    }
    LeafMeans(db, schema, JText(field), JText("contains"), value, row);
    LeafMeans(db, schema, JText(field), JText("not_contains"), value, row);
  }

  /**
   * The same for lists: an empty one is two-valued, and one that holds a null makes `not_in` keep
   * nothing, so that the two are opposite only where `in` keeps the row.
   */
  lemma ListNegationDropsNulls(db: Database, schema: Schema, field: string, value: Json, row: Row)
    requires field in schema.columns && Accepts("in", value)
    ensures Opposite(db, schema, field, "in", "not_in", value, row) <==>
      var cell, values := CellAt(row, field), Listing(value);
      values == [] || (cell != Null && (JNull !in values || JsonOf(cell) in values))
  {
    LeafMeans(db, schema, JText(field), JText("in"), value, row);
    LeafMeans(db, schema, JText(field), JText("not_in"), value, row);
  }

  /** The column has a text in which the value occurs. */
  ghost predicate HasText(db: Database, row: Row, column: string, value: string) {
    CellAt(row, column) != Null && Contains(db.fold, value, db.text(CellAt(row, column)))
  }

  /** A `contains` without wildcards keeps exactly the rows whose text contains the value. */
  lemma PlainContainsLeaf(db: Database, schema: Schema, field: string, value: string, row: Row)
    requires field in schema.columns && Plain(value)
    ensures ApplyFilterCondition(schema, JText(field), JText("contains"), JText(value)).Ok?
    ensures Kept(db, ApplyFilterCondition(schema, JText(field), JText("contains"), JText(value)).value, row)
      <==> HasText(db, row, field, value)
  {
    LeafMeans(db, schema, JText(field), JText("contains"), JText(value), row);
    PlainContains(db.fold, value, db.text(CellAt(row, field)));
  }

  /** And only such a `contains` does so on every row. */
  lemma ContainsLeafIffPlain(db: Database, schema: Schema, field: string, value: string)
    requires field in schema.columns && forall s :: db.text(Text(s)) == s
    requires db.fold('x') != db.fold('%') && db.fold('x') != db.fold('_') && db.fold('%') != db.fold('\\')
    ensures ApplyFilterCondition(schema, JText(field), JText("contains"), JText(value)).Ok?
    ensures Plain(value) <==> forall row :: HasText(db, row, field, value) <==>
      Kept(db, ApplyFilterCondition(schema, JText(field), JText("contains"), JText(value)).value, row)
  {
    if Plain(value) {
      forall row { PlainContainsLeaf(db, schema, field, value, row); }
    } else {
      ContainsIffPlain(db.fold, value);
      var text :| ILike(db.fold, "%" + value + "%", text) != Contains(db.fold, value, text);
      var row: Row := map[field := Text(text)];
      assert CellAt(row, field) == Text(text) && db.text(Text(text)) == text;
      LeafMeans(db, schema, JText(field), JText("contains"), JText(value), row);
      assert HasText(db, row, field, value) <==> Contains(db.fold, value, text);
    }
  }

  // ---- Definitions of any depth ----

  lemma SpecCompiles(schema: Schema, f: Field)
    requires NamesOperator(f.value)
    ensures CompileLegacy(schema, f).Ok? <==> SpecOk(schema, f)
  {
    LeafCompiles(schema, JText(f.key), LegacyOperator(f.value.fields), OrNull(Get(f.value.fields, "value")));
  }

  lemma SpecMeans(db: Database, schema: Schema, f: Field, row: Row)
    requires NamesOperator(f.value) && SpecOk(schema, f)
    ensures CompileLegacy(schema, f).Ok?
    ensures Kept(db, CompileLegacy(schema, f).value, row) <==> SpecKeeps(db, schema, f, row)
  {
    LeafMeans(db, schema, JText(f.key), LegacyOperator(f.value.fields), OrNull(Get(f.value.fields, "value")), row);
  }

  lemma CompilesOneMore(schema: Schema, specs: seq<Field>)
    requires specs != [] && forall f :: f in specs ==> NamesOperator(f.value)
    ensures NamesOperator(specs[0].value) && forall f :: f in specs[1..] ==> NamesOperator(f.value)
    ensures CompileSpecs(schema, specs) ==
      var first := CompileLegacy(schema, specs[0]);
      if first.Err? then Err(first.error) else After([first.value], CompileSpecs(schema, specs[1..]))
  {
    assert specs[0] in specs && forall g :: g in specs[1..] ==> g in specs;
  }

  lemma {:induction false} SpecsCompile(schema: Schema, specs: seq<Field>)
    requires forall f :: f in specs ==> NamesOperator(f.value)
    ensures CompileSpecs(schema, specs).Ok? <==> forall f :: f in specs ==> SpecOk(schema, f)
  {
    if specs != [] {
      var f, rest := specs[0], specs[1..];
      CompilesOneMore(schema, specs);
      SpecCompiles(schema, f);
      SpecsCompile(schema, rest);
      assert forall g :: g in specs <==> g == f || g in rest;
    }
  }

  lemma {:induction false} SpecsMean(db: Database, schema: Schema, specs: seq<Field>, row: Row)
    requires forall f :: f in specs ==> NamesOperator(f.value) && SpecOk(schema, f)
    ensures CompileSpecs(schema, specs).Ok? && |CompileSpecs(schema, specs).value| == |specs|
    ensures (forall c :: c in CompileSpecs(schema, specs).value ==> Kept(db, c, row))
      <==> forall f :: f in specs ==> SpecKeeps(db, schema, f, row)
  {
    if specs != [] {
      var f, rest := specs[0], specs[1..];
      CompilesOneMore(schema, specs);
      assert f in specs && forall g :: g in specs <==> g == f || g in rest;
      SpecMeans(db, schema, f, row);
      SpecsMean(db, schema, rest, row);
      var first, others := CompileLegacy(schema, f).value, CompileSpecs(schema, rest).value;
      assert CompileSpecs(schema, specs).value == [first] + others;
      assert forall c :: c in [first] + others <==> c == first || c in others;
    }
  }

  /** Compilation fails exactly on the definitions that are not well formed. */
  lemma {:induction false} CompilesIffWellFormed(schema: Schema, def: Json)
    ensures Parsed(schema, def).Ok? <==> WellFormed(schema, def)
    decreases def, 1
  {
    match ShapeOf(def)
    case Malformed(_) =>
    case Leaf(field, op, value) => LeafCompiles(schema, field, op, value);
    case Legacy(specs) => SpecsCompile(schema, specs);
    case Group(_, items) => ItemsCompile(schema, def, items);
  }

  lemma {:induction false} ItemsCompile(schema: Schema, parent: Json, items: seq<Json>)
    requires Within(items, parent)
    ensures ParsedItems(schema, parent, items).Ok? <==>
      forall item :: item in items ==> item < parent && WellFormed(schema, item)
    decreases parent, 0, |items|
  {
    if items != [] {
      assert items[0] in items && forall item :: item in items <==> item == items[0] || item in items[1..];
      CompilesIffWellFormed(schema, items[0]);
      ItemsCompile(schema, parent, items[1..]);
    }
  }

  /**
   * Compilation preserves meaning: whatever the depth of the definition and the NULLs of the row,
   * SQL keeps the row exactly when the direct reading does.
   */
  lemma {:induction false} CompilationPreservesMeaning(db: Database, schema: Schema, def: Json, row: Row)
    requires WellFormed(schema, def)
    ensures Parsed(schema, def).Ok?
    ensures Parsed(schema, def).value.Some? <==> HasLeaf(def)
    ensures HasLeaf(def) ==> (Kept(db, Parsed(schema, def).value.value, row) <==> Keeps(db, schema, def, row))
    decreases def, 1
  {
    CompilesIffWellFormed(schema, def);
    match ShapeOf(def)
    case Malformed(_) =>
    case Leaf(field, op, value) => LeafMeans(db, schema, field, op, value, row);
    case Legacy(specs) =>
      SpecsMean(db, schema, specs, row);
      JoinedKept(db, false, CompileSpecs(schema, specs).value, row);
    case Group(isOr, items) =>
      ItemsMean(db, schema, def, items, row);
      if ParsedItems(schema, def, items).value != [] {
        JoinedKept(db, isOr, ParsedItems(schema, def, items).value, row);
      }
  }

  lemma JoinedKept(db: Database, isOr: bool, parts: seq<Cond>, row: Row)
    requires parts != []
    ensures Joined(isOr, Ok(parts)).Ok? && Joined(isOr, Ok(parts)).value.Some?
    ensures Kept(db, Joined(isOr, Ok(parts)).value.value, row) <==>
      if isOr then exists c :: c in parts && Kept(db, c, row) else forall c :: c in parts ==> Kept(db, c, row)
  {
    AllKept(db, parts, row);
    AnyKept(db, parts, row);
    assert Eval(db, Or(parts), row) == EvalAny(db, parts, row);
    assert Eval(db, And(parts), row) == EvalAll(db, parts, row);
  }

  lemma {:induction false} ItemsMean(db: Database, schema: Schema, parent: Json, items: seq<Json>, row: Row)
    requires Within(items, parent)
    requires forall item :: item in items ==> WellFormed(schema, item)
    ensures ParsedItems(schema, parent, items).Ok?
    ensures var parts := ParsedItems(schema, parent, items).value;
      && (parts != [] <==> exists item :: item in items && HasLeaf(item))
      && ((forall c :: c in parts ==> Kept(db, c, row)) <==>
            forall item :: item in items && HasLeaf(item) ==> Keeps(db, schema, item, row))
      && ((exists c :: c in parts && Kept(db, c, row)) <==>
            exists item :: item in items && HasLeaf(item) && Keeps(db, schema, item, row))
    decreases parent, 0, |items|
  {
    if items != [] {
      var first := items[0];
      assert first in items && forall item :: item in items <==> item == first || item in items[1..];
      CompilationPreservesMeaning(db, schema, first, row);
      ItemsMean(db, schema, parent, items[1..], row);
      var own := Parsed(schema, first).value;
      var rest := ParsedItems(schema, parent, items[1..]).value;
      var parts := ParsedItems(schema, parent, items).value;
      assert parts == (if own.Some? then [own.value] else []) + rest;
      assert forall c :: c in parts <==> (own.Some? && c == own.value) || c in rest;
    }
  }

  /** A filtered query returns the rows it returned before that the definition keeps. */
  lemma FilteredQueryReturns(db: Database, query: Query, schema: Schema, filters: Json, row: Row)
    requires WellFormed(schema, filters)
    ensures Filtered(query, schema, Some(filters)).Ok?
    ensures Filtered(query, schema, Some(filters)).value.Returns(db, row) <==>
      query.Returns(db, row) && (HasLeaf(filters) ==> Keeps(db, schema, filters, row))
  {
    CompilationPreservesMeaning(db, schema, filters, row);
    WellFormedIsTruthy(schema, filters);
    if Parsed(schema, filters).value.Some? {
      OneMoreWhere(db, query, Parsed(schema, filters).value.value, row);
    }
  }

  lemma WellFormedIsTruthy(schema: Schema, def: Json)
    requires WellFormed(schema, def)
    ensures Truthy(def)
  {
  }

  lemma OneMoreWhere(db: Database, query: Query, c: Cond, row: Row)
    ensures Query(query.wheres + [c]).Returns(db, row) <==> query.Returns(db, row) && Kept(db, c, row)
  {
    var wheres := query.wheres + [c];
    assert forall d :: d in wheres <==> d in query.wheres || d == c;
  }
}
