/** Statement values and their compilation for the default dialect:
    `Insert().Values(record)`, `Update().Values(mapping).Where(...)` and
    `Delete().Where(...)`. Every builder returns a new statement value;
    compiling a statement turns it into a template of literal text and
    holes, which the renderer of module Sql numbers `$1, $2, ...`. */
module Statements {
  import opened Results
  import opened Sql
  import opened Schema

  // ---------------------------------------------------------------------
  // Predicates.

  datatype Op = Equal | NotEqual | Less | LessOrEqual | Greater | GreaterOrEqual

  function OpSymbol(op: Op): string {
    match op
    case Equal => "="
    case NotEqual => "!="
    case Less => "<"
    case LessOrEqual => "<="
    case Greater => ">"
    case GreaterOrEqual => ">="
  }

  /** A boolean predicate tree over columns. */
  datatype Predicate =
    | Compare(column: ColumnElem, op: Op, value: Value)
    | And(left: Predicate, right: Predicate)
    | Or(left: Predicate, right: Predicate)

  /** `col.Equals(v)` */
  function Equals(col: ColumnElem, v: Value): Predicate {
    Compare(col, Equal, v)
  }

  function PredicateColumns(p: Predicate): seq<ColumnElem> {
    match p
    case Compare(c, _, _) => [c]
    case And(l, r) => PredicateColumns(l) + PredicateColumns(r)
    case Or(l, r) => PredicateColumns(l) + PredicateColumns(r)
  }

  /** The compared values, left to right. */
  function PredicateValues(p: Predicate): seq<Value> {
    match p
    case Compare(_, _, v) => [v]
    case And(l, r) => PredicateValues(l) + PredicateValues(r)
    case Or(l, r) => PredicateValues(l) + PredicateValues(r)
  }

  /** The first column of `p` that does not belong to `t`. */
  function ForeignColumn(p: Predicate, t: Table): (r: Option<ColumnElem>)
    ensures r.None? <==> forall c :: c in PredicateColumns(p) ==> c.table == t
    ensures r.Some? ==> r.value in PredicateColumns(p) && r.value.table != t
  {
    match p
    case Compare(c, _, _) => if c.table != t then Some(c) else None
    case And(l, r) => if ForeignColumn(l, t).Some? then ForeignColumn(l, t) else ForeignColumn(r, t)
    case Or(l, r) => if ForeignColumn(l, t).Some? then ForeignColumn(l, t) else ForeignColumn(r, t)
  }

  /** Each comparison is `"table"."column" op $n`; a compound predicate is
      parenthesised. */
  function PredicateTokens(p: Predicate): seq<Token> {
    match p
    case Compare(c, op, v) => [Lit(Qualified(c.table.name, c.name) + " " + OpSymbol(op) + " "), Arg(v)]
    case And(l, r) => [Lit("(")] + PredicateTokens(l) + [Lit(" AND ")] + PredicateTokens(r) + [Lit(")")]
    case Or(l, r) => [Lit("(")] + PredicateTokens(l) + [Lit(" OR ")] + PredicateTokens(r) + [Lit(")")]
  }

  function WhereTokens(where: Option<Predicate>): seq<Token> {
    match where
    case None => []
    case Some(p) => [Lit(" WHERE ")] + PredicateTokens(p)
  }

  // ---------------------------------------------------------------------
  // Bound values.

  /** A record field bound to a column name (a `db:"name"` tag). */
  datatype Field = Field(column: string, value: Value)

  function FieldNames(fs: seq<Field>): (ns: seq<string>)
    ensures |ns| == |fs| && forall i :: 0 <= i < |fs| ==> ns[i] == fs[i].column
  {
    seq(|fs|, i requires 0 <= i < |fs| => fs[i].column)
  }

  function FieldValues(fs: seq<Field>): (vs: seq<Value>)
    ensures |vs| == |fs| && forall i :: 0 <= i < |fs| ==> vs[i] == fs[i].value
  {
    seq(|fs|, i requires 0 <= i < |fs| => fs[i].value)
  }

  /** The value a record binds to `column`: that of its first field with
      that name. */
  function Lookup(record: seq<Field>, column: string): Option<Value>
    decreases |record|
  {
    if record == [] then None
    else if record[0].column == column then Some(record[0].value)
    else Lookup(record[1..], column)
  }

  /** The table's columns that the record binds, in declaration order,
      each with its value. */
  function BindRecord(cols: seq<ColumnDef>, record: seq<Field>): seq<Field>
    decreases |cols|
  {
    if cols == [] then []
    else
      match Lookup(record, cols[0].name)
      case Some(v) => [Field(cols[0].name, v)] + BindRecord(cols[1..], record)
      case None => BindRecord(cols[1..], record)
  }

  /** The table's columns that are keys of the mapping, in declaration
      order, each with its value. */
  function BindMap(cols: seq<ColumnDef>, values: map<string, Value>): seq<Field>
    decreases |cols|
  {
    if cols == [] then []
    else if cols[0].name in values then [Field(cols[0].name, values[cols[0].name])] + BindMap(cols[1..], values)
    else BindMap(cols[1..], values)
  }

  /** `"a" = $, "b" = $`: one assignment per field. */
  function Assignments(fs: seq<Field>): seq<Token>
    decreases |fs|
  {
    if |fs| == 0 then []
    else if |fs| == 1 then [Lit(Quote(fs[0].column) + " = "), Arg(fs[0].value)]
    else [Lit(Quote(fs[0].column) + " = "), Arg(fs[0].value), Lit(", ")] + Assignments(fs[1..])
  }

  // ---------------------------------------------------------------------
  // Statements.

  datatype StatementError =
    | UnknownColumns(columns: set<string>)
    | ForeignColumnReference(table: string, column: string)

  datatype InsertStmt = InsertStmt(table: Table, record: seq<Field>) {

    /** `.Values(record)` */
    function Values(record: seq<Field>): InsertStmt {
      this.(record := record)
    }

    function Tokens(): seq<Token> {
      var fs := BindRecord(table.columns, record);
      [Lit("INSERT INTO " + Quote(table.name) + " (" + QuotedList(FieldNames(fs)) + ") VALUES (")]
        + ArgList(FieldValues(fs)) + [Lit(")")]
    }

    function Compile(): Compiled {
      Render(Tokens(), 1)
    }
  }

  datatype UpdateStmt = UpdateStmt(table: Table, values: map<string, Value>, where: Option<Predicate>) {

    /** `.Values(mapping)`: every key must name a column of the table. */
    function Values(values: map<string, Value>): Result<UpdateStmt, StatementError> {
      var unknown := values.Keys - set c | c in table.columns :: c.name;
      if unknown != {} then Failure(UnknownColumns(unknown))
      else Success(this.(values := values))
    }

    /** `.Where(predicate)`: every column must belong to the table. */
    function Where(p: Predicate): Result<UpdateStmt, StatementError> {
      match ForeignColumn(p, table)
      case Some(c) => Failure(ForeignColumnReference(c.table.name, c.name))
      case None => Success(this.(where := Some(p)))
    }

    function Tokens(): seq<Token> {
      [Lit("UPDATE " + Quote(table.name) + " SET ")]
        + Assignments(BindMap(table.columns, values)) + WhereTokens(where)
    }

    function Compile(): Compiled {
      Render(Tokens(), 1)
    }
  }

  datatype DeleteStmt = DeleteStmt(table: Table, where: Option<Predicate>) {

    /** `.Where(predicate)`: every column must belong to the table. */
    function Where(p: Predicate): Result<DeleteStmt, StatementError> {
      match ForeignColumn(p, table)
      case Some(c) => Failure(ForeignColumnReference(c.table.name, c.name))
      case None => Success(this.(where := Some(p)))
    }

    function Tokens(): seq<Token> {
      [Lit("DELETE FROM " + Quote(table.name))] + WhereTokens(where)
    }

    function Compile(): Compiled {
      Render(Tokens(), 1)
    }
  }

  /** `table.Insert()` */
  function Insert(t: Table): InsertStmt {
    InsertStmt(t, [])
  }

  /** `table.Update()` */
  function Update(t: Table): UpdateStmt {
    UpdateStmt(t, map[], None)
  }

  /** `table.Delete()` */
  function Delete(t: Table): DeleteStmt {
    DeleteStmt(t, None)
  }
}
