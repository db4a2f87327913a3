/** The schema model: column types, the declarations `Column(name, type)`,
    `PrimaryKey(names...)` and `Unique(names...)`, and `Table(name, ...)`,
    which folds the declarations into a table and fails (where the library
    panics) on an empty or duplicate column name, a constraint naming an
    unknown column, or a second primary key. */
module Schema {
  import opened Results

  // ---------------------------------------------------------------------
  // Data model.

  datatype Kind = Integer | String | Timestamp

  /** A column type with its modifiers (`Integer{NotNull: true}`,
      `String{Length: 32, Unique: true}`, ...). */
  datatype ColumnType = ColumnType(kind: Kind, length: nat, notNull: bool, unique: bool, primaryKey: bool)

  datatype ColumnDef = ColumnDef(name: string, typ: ColumnType)

  /** A validated table: its name, its columns in declaration order, its
      primary key (None when none was declared) and its unique constraints
      in declaration order. */
  datatype Table = Table(name: string, columns: seq<ColumnDef>, pk: Option<seq<string>>, uniques: seq<seq<string>>)

  /** A column as handed out by the table's accessor: it carries its name,
      its type and a reference back to its owning table. */
  datatype ColumnElem = ColumnElem(name: string, typ: ColumnType, table: Table)

  /** The arguments of `Table(name, ...)`. */
  datatype Decl =
    | Column(name: string, typ: ColumnType)
    | PrimaryKey(keys: seq<string>)
    | Unique(keys: seq<string>)

  datatype SchemaError =
    | EmptyColumnName
    | DuplicateColumn(column: string)
    | UnknownColumn(column: string)
    | MultiplePrimaryKeys

  function Names(cols: seq<ColumnDef>): (ns: seq<string>)
    ensures |ns| == |cols|
    ensures forall i :: 0 <= i < |cols| ==> ns[i] == cols[i].name
    decreases |cols|
  {
    if cols == [] then [] else [cols[0].name] + Names(cols[1..])
  }

  /** `String()` of a table. */
  function TableString(t: Table): string {
    t.name
  }

  // ---------------------------------------------------------------------
  // Construction, one declaration at a time.

  function EmptyTable(name: string): Table {
    Table(name, [], None, [])
  }

  /** The first of `keys` that is not among `names`. */
  function FirstUnknown(keys: seq<string>, names: seq<string>): (r: Option<string>)
    ensures r.None? <==> forall k :: k in keys ==> k in names
    ensures r.Some? ==> r.value in keys && r.value !in names
    decreases |keys|
  {
    if keys == [] then None
    else if keys[0] !in names then Some(keys[0])
    else FirstUnknown(keys[1..], names)
  }

  lemma {:induction false} FirstUnknownAt(keys: seq<string>, names: seq<string>, j: nat)
    requires j < |keys| && keys[j] !in names
    requires forall m :: 0 <= m < j ==> keys[m] in names
    ensures FirstUnknown(keys, names) == Some(keys[j])
    decreases j
  {
    if j > 0 {
      FirstUnknownAt(keys[1..], names, j - 1);
    }
  }

  /** Adds one declaration to a table under construction. */
  function Declare(t: Table, d: Decl): Result<Table, SchemaError> {
    match d
    case Column(n, ty) =>
      if n == "" then Failure(EmptyColumnName)
      else if n in Names(t.columns) then Failure(DuplicateColumn(n))
      else if ty.primaryKey && t.pk.Some? then Failure(MultiplePrimaryKeys)
      else Success(t.(columns := t.columns + [ColumnDef(n, ty)],
                      pk := if ty.primaryKey then Some([n]) else t.pk,
                      uniques := if ty.unique then t.uniques + [[n]] else t.uniques))
    case PrimaryKey(keys) =>
      if t.pk.Some? then Failure(MultiplePrimaryKeys)
      else (match FirstUnknown(keys, Names(t.columns))
            case Some(k) => Failure(UnknownColumn(k))
            case None => Success(t.(pk := Some(keys))))
    case Unique(keys) =>
      match FirstUnknown(keys, Names(t.columns))
      case Some(k) => Failure(UnknownColumn(k))
      case None => Success(t.(uniques := t.uniques + [keys]))
  }

  /** `Table(name, decls...)`: the declarations applied in order; the first
      one that fails decides the failure. */
  function Build(name: string, decls: seq<Decl>): Result<Table, SchemaError>
    decreases |decls|
  {
    if decls == [] then Success(EmptyTable(name))
    else
      match Build(name, decls[..|decls| - 1])
      case Failure(e) => Failure(e)
      case Success(t) => Declare(t, decls[|decls| - 1])
  }

  /** One more declaration: `Build` of an extended list is `Declare` on the
      table built so far. */
  lemma BuildSnoc(name: string, init: seq<Decl>, d: Decl)
    ensures Build(name, init + [d])
         == match Build(name, init)
            case Failure(e) => Failure(e)
            case Success(t) => Declare(t, d)
  {
    assert (init + [d])[..|init|] == init;
  }

  lemma {:induction false} FailureSticks(name: string, decls: seq<Decl>, k: nat)
    requires k <= |decls| && Build(name, decls[..k]).Failure?
    ensures Build(name, decls) == Build(name, decls[..k])
    decreases |decls|
  {
    if k < |decls| {
      var init := decls[..|decls| - 1];
      assert init[..k] == decls[..k];
      FailureSticks(name, init, k);
    } else {
      assert decls[..k] == decls;
    }
  }

  /** The table constructor as a loop over the declarations: it
      accumulates the column map `C`, the columns in order, the primary key
      and the unique constraints, and stops at the first declaration that
      is rejected. */
  method NewTable(name: string, decls: seq<Decl>) returns (r: Result<Table, SchemaError>)
    ensures r == Build(name, decls)
  {
    var c: map<string, ColumnType> := map[];
    var columns: seq<ColumnDef> := [];
    var pk: Option<seq<string>> := None;
    var uniques: seq<seq<string>> := [];
    var i := 0;
    while i < |decls|
      invariant 0 <= i <= |decls|
      invariant Build(name, decls[..i]) == Success(Table(name, columns, pk, uniques))
      invariant forall n :: n in c <==> n in Names(columns)
    {
      assert decls[..i + 1][..i] == decls[..i];
      ghost var t := Table(name, columns, pk, uniques);
      var err: Option<SchemaError> := None;
      match decls[i] {
      case Column(n, ty) =>
        if n == "" {
          err := Some(EmptyColumnName);
        } else if n in c {
          err := Some(DuplicateColumn(n));
        } else if ty.primaryKey && pk.Some? {
          err := Some(MultiplePrimaryKeys);
        } else {
          c := c[n := ty];
          columns := columns + [ColumnDef(n, ty)];
          if ty.primaryKey {
            pk := Some([n]);
          }
          if ty.unique {
            uniques := uniques + [[n]];
          }
          assert Names(columns) == Names(t.columns) + [n];
        }
      case PrimaryKey(keys) =>
        if pk.Some? {
          err := Some(MultiplePrimaryKeys);
        } else {
          var unknown := FindUnknown(keys, c);
          if unknown.Some? {
            FirstUnknownAt(keys, Names(columns), unknown.value);
            err := Some(UnknownColumn(keys[unknown.value]));
          } else {
            pk := Some(keys);
          }
        }
      case Unique(keys) =>
        var unknown := FindUnknown(keys, c);
        if unknown.Some? {
          FirstUnknownAt(keys, Names(columns), unknown.value);
          err := Some(UnknownColumn(keys[unknown.value]));
        } else {
          uniques := uniques + [keys];
        }
      }
      if err.Some? {
        r := Failure(err.value);
        FailureSticks(name, decls, i + 1);
        return;
      }
      i := i + 1;
    }
    assert decls[..i] == decls;
    r := Success(Table(name, columns, pk, uniques));
  }

  /** The position of the first key missing from the column map. */
  method FindUnknown(keys: seq<string>, c: map<string, ColumnType>) returns (r: Option<nat>)
    ensures r.None? ==> forall k :: k in keys ==> k in c
    ensures r.Some? ==> r.value < |keys| && keys[r.value] !in c
                        && forall m :: 0 <= m < r.value ==> keys[m] in c
  {
    var j := 0;
    while j < |keys|
      invariant j <= |keys|
      invariant forall m :: 0 <= m < j ==> keys[m] in c
    {
      if keys[j] !in c {
        return Some(j);
      }
      j := j + 1;
    }
    return None;
  }

  // ---------------------------------------------------------------------
  // The column accessor `C[name]`.

  function FindColumn(cols: seq<ColumnDef>, name: string): (r: Option<ColumnDef>)
    ensures r.Some? <==> name in Names(cols)
    ensures r.Some? ==> r.value in cols && r.value.name == name
    decreases |cols|
  {
    if cols == [] then None
    else if cols[0].name == name then Some(cols[0])
    else FindColumn(cols[1..], name)
  }

  /** `t.C[name]`: the named column, pointing back at `t`. */
  function C(t: Table, name: string): (r: Option<ColumnElem>)
    ensures r.Some? <==> name in Names(t.columns)
    ensures r.Some? ==> r.value.name == name && r.value.table == t
                        && ColumnDef(name, r.value.typ) in t.columns
  {
    match FindColumn(t.columns, name)
    case None => None
    case Some(col) => Some(ColumnElem(col.name, col.typ, t))
  }
}
