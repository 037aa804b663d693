/** Filter definitions as JSON, SQL conditions, and SQL's three-valued evaluation of them. */
module FilterModel {
  import opened Wrappers
  import opened TextMatching

  // ---- JSON ----

  datatype Field = Field(key: string, value: Json)

  datatype Json =
    | JNull
    | JBool(b: bool)
    | JNumber(n: int)
    | JText(s: string)
    | JList(items: seq<Json>)
    | JObject(fields: seq<Field>)

  /** Python's `dict.get`. */
  function Get(fields: seq<Field>, key: string): (found: Option<Json>)
    ensures found.Some? ==> Field(key, found.value) in fields
  {
    if fields == [] then None
    else if fields[0].key == key then Some(fields[0].value)
    else Get(fields[1..], key)
  }

  /** Python's truth value. */
  predicate Truthy(j: Json) {
    match j
    case JNull => false
    case JBool(b) => b
    case JNumber(n) => n != 0
    case JText(s) => s != ""
    case JList(items) => items != []
    case JObject(fields) => fields != []
  }

  // ---- Rows and conditions ----

  datatype Cell = Null | Number(n: int) | Text(s: string) | Flag(b: bool)

  type Row = map<string, Cell>

  function CellAt(row: Row, column: string): Cell {
    if column in row then row[column] else Null
  }

  datatype Comparison = Same | Differs | Below | Above | AtMost | AtLeast

  datatype Cond =
    | IsNull(column: string)
    | IsNotNull(column: string)
    | Compare(column: string, cmp: Comparison, value: Cell)
    | InList(column: string, values: seq<Cell>)
    | TextLike(column: string, pattern: string)
    | Not(negated: Cond)
    | And(all: seq<Cond>)
    | Or(any: seq<Cond>)

  /** What the database decides: its order of values, its cast to text and its case folding. */
  datatype Database = Database(below: (Cell, Cell) -> bool, text: Cell -> string, fold: Fold)
  {
    predicate Stands(cell: Cell, cmp: Comparison, value: Cell) {
      match cmp
      case Same => cell == value
      case Differs => cell != value
      case Below => below(cell, value)
      case Above => below(value, cell)
      case AtMost => cell == value || below(cell, value)
      case AtLeast => cell == value || below(value, cell)
    }

    predicate Matches(cell: Cell, pattern: string) {
      ILike(fold, pattern, text(cell))
    }
  }

  // ---- Kleene's logic, as SQL uses it ----

  datatype Truth = True | False | Unknown

  function Known(b: bool): Truth { if b then True else False }

  function NotK(t: Truth): Truth {
    match t case True => False case False => True case Unknown => Unknown
  }

  function AndK(a: Truth, b: Truth): Truth {
    if a == False || b == False then False else if a == True && b == True then True else Unknown
  }

  function OrK(a: Truth, b: Truth): Truth {
    NotK(AndK(NotK(a), NotK(b)))
  }

  /** The three connectives, value by value. */
  lemma KleeneTables()
    ensures NotK(True) == False && NotK(False) == True && NotK(Unknown) == Unknown
    ensures forall t :: AndK(True, t) == t == AndK(t, True) && AndK(False, t) == False == AndK(t, False)
    ensures forall t :: OrK(False, t) == t == OrK(t, False) && OrK(True, t) == True == OrK(t, True)
    ensures AndK(Unknown, Unknown) == Unknown == OrK(Unknown, Unknown)
  {
  }

  /** A comparison with NULL on either side is unknown. */
  function CompareK(db: Database, cell: Cell, cmp: Comparison, value: Cell): Truth {
    if cell == Null || value == Null then Unknown else Known(db.Stands(cell, cmp, value))
  }

  function InK(db: Database, cell: Cell, values: seq<Cell>): Truth {
    if values == [] then False
    else OrK(CompareK(db, cell, Same, values[0]), InK(db, cell, values[1..]))
  }

  function Eval(db: Database, c: Cond, row: Row): Truth {
    match c
    case IsNull(column) => Known(CellAt(row, column) == Null)
    case IsNotNull(column) => Known(CellAt(row, column) != Null)
    case Compare(column, cmp, value) => CompareK(db, CellAt(row, column), cmp, value)
    case InList(column, values) => InK(db, CellAt(row, column), values)
    case TextLike(column, pattern) =>
      if CellAt(row, column) == Null then Unknown else Known(db.Matches(CellAt(row, column), pattern))
    case Not(negated) => NotK(Eval(db, negated, row))
    case And(all) => EvalAll(db, all, row)
    case Or(any) => EvalAny(db, any, row)
  }

  function EvalAll(db: Database, cs: seq<Cond>, row: Row): Truth {
    if cs == [] then True else AndK(Eval(db, cs[0], row), EvalAll(db, cs[1..], row))
  }

  function EvalAny(db: Database, cs: seq<Cond>, row: Row): Truth {
    if cs == [] then False else OrK(Eval(db, cs[0], row), EvalAny(db, cs[1..], row))
  }

  /** WHERE keeps a row only when the condition is true: neither false nor unknown. */
  predicate Kept(db: Database, c: Cond, row: Row) {
    Eval(db, c, row) == True
  }

  lemma {:induction false} AllKept(db: Database, cs: seq<Cond>, row: Row)
    ensures EvalAll(db, cs, row) == True <==> forall c :: c in cs ==> Kept(db, c, row)
  {
    if cs != [] {
      AllKept(db, cs[1..], row);
      assert Kept(db, cs[0], row) <==> Eval(db, cs[0], row) == True;
      assert forall c :: c in cs <==> c == cs[0] || c in cs[1..];
    }
  }

  lemma {:induction false} AnyKept(db: Database, cs: seq<Cond>, row: Row)
    ensures EvalAny(db, cs, row) == True <==> exists c :: c in cs && Kept(db, c, row)
  {
    if cs != [] {
      AnyKept(db, cs[1..], row);
      assert Kept(db, cs[0], row) <==> Eval(db, cs[0], row) == True;
      assert forall c :: c in cs <==> c == cs[0] || c in cs[1..];
    }
  }

  lemma EitherKept(db: Database, a: Cond, b: Cond, row: Row)
    ensures Kept(db, Or([a, b]), row) <==> Kept(db, a, row) || Kept(db, b, row)
  {
    assert Eval(db, Or([a, b]), row) == EvalAny(db, [a, b], row);
    AnyKept(db, [a, b], row);
    assert a == [a, b][0] && b == [a, b][1];
  }

  lemma BothKept(db: Database, a: Cond, b: Cond, row: Row)
    ensures Kept(db, And([a, b]), row) <==> Kept(db, a, row) && Kept(db, b, row)
  {
    assert Eval(db, And([a, b]), row) == EvalAll(db, [a, b], row);
    AllKept(db, [a, b], row);
    assert a == [a, b][0] && b == [a, b][1];
  }

  /** IN is true on a match, false on a certain miss, unknown when a NULL leaves it open. */
  lemma {:induction false} InDecides(db: Database, cell: Cell, values: seq<Cell>)
    ensures InK(db, cell, values) == True <==> cell != Null && cell in values
    ensures InK(db, cell, values) == False <==>
      values == [] || (cell != Null && cell !in values && Null !in values)
  {
    if values != [] { InDecides(db, cell, values[1..]); }
  }
}
