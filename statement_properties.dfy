/** What compilation promises for the default dialect: columns come out in
    declaration order, placeholders `$1..$n` and parameters stay in
    lock-step, bound values only ever become parameters, and the builders
    reject columns that are not the table's. */
module StatementProperties {
  import opened Results
  import opened Sql
  import opened Schema
  import opened Statements

  /** `xs` is `ys` with some elements left out, order kept. */
  predicate IsSubsequence<T(==)>(xs: seq<T>, ys: seq<T>)
    decreases |ys|
  {
    if xs == [] then true
    else if ys == [] then false
    else if xs[0] == ys[0] then IsSubsequence(xs[1..], ys[1..])
    else IsSubsequence(xs, ys[1..])
  }

  lemma NamesTail(cols: seq<ColumnDef>)
    requires cols != []
    ensures Names(cols) == [cols[0].name] + Names(cols[1..])
  {
  }

  // ---------------------------------------------------------------------
  // Binding a record or a mapping to the table's columns.

  lemma FieldNamesCons(f: Field, fs: seq<Field>)
    ensures FieldNames([f] + fs) == [f.column] + FieldNames(fs)
  {
    var l, r := FieldNames([f] + fs), [f.column] + FieldNames(fs);
    forall i | 0 <= i < |l|
      ensures l[i] == r[i]
    {
      if i > 0 {
        assert ([f] + fs)[i] == fs[i - 1];
      }
    }
  }

  /** The columns an insert binds are the table's columns that the record
      has a field for, in declaration order, each with that field's value. */
  lemma {:induction false} BindRecordInOrder(cols: seq<ColumnDef>, record: seq<Field>)
    ensures var fs := BindRecord(cols, record);
            && IsSubsequence(FieldNames(fs), Names(cols))
            && (forall n :: n in FieldNames(fs) <==> n in Names(cols) && Lookup(record, n).Some?)
            && (forall f :: f in fs ==> Lookup(record, f.column) == Some(f.value))
    decreases |cols|
  {
    if cols != [] {
      var rest := BindRecord(cols[1..], record);
      BindRecordInOrder(cols[1..], record);
      NamesTail(cols);
      var fs := BindRecord(cols, record);
      match Lookup(record, cols[0].name)
      case Some(v) =>
        assert fs == [Field(cols[0].name, v)] + rest;
        FieldNamesCons(Field(cols[0].name, v), rest);
        assert FieldNames(fs)[1..] == FieldNames(rest);
      case None =>
        assert fs == rest;
    }
  }

  /** A record with a field for every column lists every column, in
      declaration order. */
  lemma {:induction false} BindRecordComplete(cols: seq<ColumnDef>, record: seq<Field>)
    requires forall i :: 0 <= i < |cols| ==> Lookup(record, cols[i].name).Some?
    ensures FieldNames(BindRecord(cols, record)) == Names(cols)
    decreases |cols|
  {
    if cols != [] {
      var f := Field(cols[0].name, Lookup(record, cols[0].name).value);
      var rest := BindRecord(cols[1..], record);
      assert BindRecord(cols, record) == [f] + rest;
      forall i | 0 <= i < |cols| - 1
        ensures Lookup(record, cols[1..][i].name).Some?
      {
        assert cols[1..][i] == cols[i + 1];
      }
      BindRecordComplete(cols[1..], record);
      NamesTail(cols);
      FieldNamesCons(f, rest);
    }
  }

  /** Only what a record binds matters, not the order of its fields. */
  lemma {:induction false} BindRecordIgnoresFieldOrder(cols: seq<ColumnDef>, r1: seq<Field>, r2: seq<Field>)
    requires forall n :: Lookup(r1, n) == Lookup(r2, n)
    ensures BindRecord(cols, r1) == BindRecord(cols, r2)
    decreases |cols|
  {
    if cols != [] {
      BindRecordIgnoresFieldOrder(cols[1..], r1, r2);
      assert Lookup(r1, cols[0].name) == Lookup(r2, cols[0].name);
    }
  }

  /** The SET list of an update is the table's columns that are keys of the
      mapping, in declaration order, each with its mapped value: the order
      never depends on the mapping itself. */
  lemma {:induction false} BindMapInOrder(cols: seq<ColumnDef>, values: map<string, Value>)
    ensures var fs := BindMap(cols, values);
            && IsSubsequence(FieldNames(fs), Names(cols))
            && (forall n :: n in FieldNames(fs) <==> n in Names(cols) && n in values)
            && (forall f :: f in fs ==> f.column in values && values[f.column] == f.value)
    decreases |cols|
  {
    if cols != [] {
      var rest := BindMap(cols[1..], values);
      BindMapInOrder(cols[1..], values);
      NamesTail(cols);
      var fs := BindMap(cols, values);
      if cols[0].name in values {
        assert fs == [Field(cols[0].name, values[cols[0].name])] + rest;
        FieldNamesCons(Field(cols[0].name, values[cols[0].name]), rest);
        assert FieldNames(fs)[1..] == FieldNames(rest);
      } else {
        assert fs == rest;
      }
    }
  }

  // ---------------------------------------------------------------------
  // Insert.

  /** `Insert().Values(record)` compiles to
      `INSERT INTO "t" ("c1", ..., "ck") VALUES ($1, ..., $k)` over the
      columns the record binds, in declaration order, with their values as
      the parameters in that same order. */
  lemma InsertCompiles(t: Table, record: seq<Field>)
    ensures var fs := BindRecord(t.columns, record);
            Insert(t).Values(record).Compile()
              == Compiled("INSERT INTO " + Quote(t.name) + " (" + QuotedList(FieldNames(fs))
                            + ") VALUES (" + PlaceholderList(1, |fs|) + ")",
                          FieldValues(fs))
  {
    var fs := BindRecord(t.columns, record);
    RenderLitAround("INSERT INTO " + Quote(t.name) + " (" + QuotedList(FieldNames(fs)) + ") VALUES (",
                    ArgList(FieldValues(fs)), ")", 1);
    ArgListRenders(FieldValues(fs), 1);
  }

  /** Compiling an insert depends on what the record binds, not on the
      order of its fields. */
  lemma InsertIgnoresFieldOrder(t: Table, r1: seq<Field>, r2: seq<Field>)
    requires forall n :: Lookup(r1, n) == Lookup(r2, n)
    ensures Insert(t).Values(r1).Compile() == Insert(t).Values(r2).Compile()
  {
    BindRecordIgnoresFieldOrder(t.columns, r1, r2);
  }

  /** A record that binds every column inserts every column, in declaration
      order, with `$1..$n` and the values in that order. */
  lemma InsertFullRecord(t: Table, record: seq<Field>)
    requires forall i :: 0 <= i < |t.columns| ==> Lookup(record, t.columns[i].name).Some?
    ensures Insert(t).Values(record).Compile()
              == Compiled("INSERT INTO " + Quote(t.name) + " (" + QuotedList(Names(t.columns))
                            + ") VALUES (" + PlaceholderList(1, |t.columns|) + ")",
                          seq(|t.columns|, i requires 0 <= i < |t.columns| => Lookup(record, t.columns[i].name).value))
  {
    InsertCompiles(t, record);
    BindRecordComplete(t.columns, record);
    BindRecordInOrder(t.columns, record);
    var fs := BindRecord(t.columns, record);
    assert |FieldNames(fs)| == |Names(t.columns)|;
    forall i | 0 <= i < |fs| ensures fs[i].value == Lookup(record, t.columns[i].name).value {
      assert fs[i] in fs;
      assert FieldNames(fs)[i] == Names(t.columns)[i];
    }
  }

  // ---------------------------------------------------------------------
  // Predicates.

  /** A predicate's parameters are its compared values, left to right,
      wherever its numbering starts. */
  lemma {:induction false} PredicateParams(p: Predicate, next: nat)
    ensures Render(PredicateTokens(p), next).params == PredicateValues(p)
  {
    match p
    case Compare(c, op, v) =>
      CompareRenders(c, op, v, next);
    case And(l, r) =>
      ConnectiveTokens(p);
      PredicateParams(l, next);
      PredicateParams(r, next + |PredicateValues(l)|);
      CompoundRenders(l, " AND ", r, next);
    case Or(l, r) =>
      ConnectiveTokens(p);
      PredicateParams(l, next);
      PredicateParams(r, next + |PredicateValues(l)|);
      CompoundRenders(l, " OR ", r, next);
  }


  /** A comparison renders as `"table"."column" op $next`. */
  lemma CompareRenders(c: ColumnElem, op: Op, v: Value, next: nat)
    ensures Render(PredicateTokens(Compare(c, op, v)), next)
         == Compiled(Qualified(c.table.name, c.name) + " " + OpSymbol(op) + " " + Placeholder(next), [v])
  {
    RenderLit(Qualified(c.table.name, c.name) + " " + OpSymbol(op) + " ", [Arg(v)], next);
    RenderArg(v, [], next);
    assert Placeholder(next) + "" == Placeholder(next);
  }

  lemma ConnectiveTokens(p: Predicate)
    requires p.And? || p.Or?
    ensures PredicateTokens(p)
         == [Lit("(")] + PredicateTokens(p.left) + [Lit(if p.And? then " AND " else " OR ")]
            + PredicateTokens(p.right) + [Lit(")")]
  {
  }

  /** AND and OR render as their two halves in parentheses, the right half
      numbered after the left one. */
  lemma ConnectiveRenders(p: Predicate, next: nat)
    requires p.And? || p.Or?
    ensures var L := Render(PredicateTokens(p.left), next);
            var R := Render(PredicateTokens(p.right), next + |PredicateValues(p.left)|);
            Render(PredicateTokens(p), next)
              == Compiled("(" + L.sql + (if p.And? then " AND " else " OR ") + R.sql + ")",
                          PredicateValues(p.left) + PredicateValues(p.right))
  {
    var conj := if p.And? then " AND " else " OR ";
    ConnectiveTokens(p);
    PredicateParams(p.left, next);
    PredicateParams(p.right, next + |PredicateValues(p.left)|);
    CompoundRenders(p.left, conj, p.right, next);
  }

  lemma CompoundRenders(l: Predicate, conj: string, r: Predicate, next: nat)
    requires Render(PredicateTokens(l), next).params == PredicateValues(l)
    ensures var L := Render(PredicateTokens(l), next);
            var R := Render(PredicateTokens(r), next + |PredicateValues(l)|);
            Render([Lit("(")] + PredicateTokens(l) + [Lit(conj)] + PredicateTokens(r) + [Lit(")")], next)
              == Compiled("(" + L.sql + conj + R.sql + ")", L.params + R.params)
  {
    RenderInterleaved("(", PredicateTokens(l), conj, PredicateTokens(r), ")", next);
  }

  lemma WhereRenders(where: Option<Predicate>, next: nat)
    ensures where.None? ==> Render(WhereTokens(where), next) == Compiled("", [])
    ensures where.Some? ==>
              (Render(WhereTokens(where), next)
                == Compiled(" WHERE " + Render(PredicateTokens(where.value), next).sql,
                            PredicateValues(where.value)))
  {
    if where.Some? {
      RenderLit(" WHERE ", PredicateTokens(where.value), next);
      PredicateParams(where.value, next);
    }
  }

  // ---------------------------------------------------------------------
  // Delete.

  /** `Delete()` without a condition deletes the whole table and binds
      nothing. */
  lemma DeleteAll(t: Table)
    ensures Delete(t).Compile() == Compiled("DELETE FROM " + Quote(t.name), [])
  {
    var head := "DELETE FROM " + Quote(t.name);
    assert Delete(t).Tokens() == [Lit(head)] + [];
    RenderLit(head, [], 1);
    assert head + "" == head;
  }

  /** `Where(p)` is accepted exactly when every column of `p` belongs to the
      statement's table; the condition follows ` WHERE `, numbered from
      `$1`, and its compared values are the parameters. */
  lemma DeleteWhereCompiles(t: Table, p: Predicate)
    ensures Delete(t).Where(p).Success? <==> forall c :: c in PredicateColumns(p) ==> c.table == t
    ensures Delete(t).Where(p).Success? ==>
              Delete(t).Where(p).value.Compile()
                == Compiled("DELETE FROM " + Quote(t.name) + " WHERE " + Render(PredicateTokens(p), 1).sql,
                            PredicateValues(p))
  {
    if Delete(t).Where(p).Success? {
      var head := "DELETE FROM " + Quote(t.name);
      assert Delete(t).Where(p).value.Tokens() == [Lit(head)] + WhereTokens(Some(p));
      RenderLit(head, WhereTokens(Some(p)), 1);
      WhereRenders(Some(p), 1);
    }
  }

  /** `Delete().Where(t.C[name].Equals(v))` compiles to
      `DELETE FROM "t" WHERE "t"."name" = $1` with the single parameter `v`. */
  lemma DeleteWhereEquals(t: Table, name: string, v: Value)
    requires C(t, name).Some?
    ensures Delete(t).Where(Equals(C(t, name).value, v)).Success?
    ensures Delete(t).Where(Equals(C(t, name).value, v)).value.Compile()
              == Compiled("DELETE FROM " + Quote(t.name) + " WHERE " + Qualified(t.name, name) + " = $1", [v])
  {
    var c := C(t, name).value;
    assert c.table == t && c.name == name;
    var p := Equals(c, v);
    assert PredicateColumns(p) == [c];
    DeleteWhereCompiles(t, p);
    CompareRenders(c, Equal, v, 1);
    assert Placeholder(1) == "$1";
  }

  // ---------------------------------------------------------------------
  // Update.

  /** `"a" = $first, "b" = $first+1, ...` */
  function AssignmentList(fs: seq<Field>, first: nat): string {
    Join(seq(|fs|, i requires 0 <= i < |fs| => Quote(fs[i].column) + " = " + Placeholder(first + i)), ", ")
  }

  lemma AssignmentListStep(fs: seq<Field>, first: nat)
    requires |fs| >= 2
    ensures AssignmentList(fs, first)
         == Quote(fs[0].column) + " = " + Placeholder(first) + ", " + AssignmentList(fs[1..], first + 1)
  {
    var items := seq(|fs|, i requires 0 <= i < |fs| => Quote(fs[i].column) + " = " + Placeholder(first + i));
    var rest := seq(|fs| - 1, i requires 0 <= i < |fs| - 1 => Quote(fs[1..][i].column) + " = " + Placeholder(first + 1 + i));
    assert items[1..] == rest;
  }

  lemma AssignmentsStep(fs: seq<Field>, next: nat)
    requires |fs| >= 2
    ensures var rest := Render(Assignments(fs[1..]), next + 1);
            Render(Assignments(fs), next)
              == Compiled(Quote(fs[0].column) + " = " + Placeholder(next) + ", " + rest.sql,
                          [fs[0].value] + rest.params)
  {
    var head := Quote(fs[0].column) + " = ";
    var rest := Assignments(fs[1..]);
    assert Assignments(fs) == [Lit(head)] + ([Arg(fs[0].value)] + ([Lit(", ")] + rest));
    RenderLit(head, [Arg(fs[0].value)] + ([Lit(", ")] + rest), next);
    RenderArg(fs[0].value, [Lit(", ")] + rest, next);
    RenderLit(", ", rest, next + 1);
  }

  lemma AssignmentsRenderOne(fs: seq<Field>, next: nat)
    requires |fs| == 1
    ensures Render(Assignments(fs), next) == Compiled(AssignmentList(fs, next), FieldValues(fs))
  {
    var head := Quote(fs[0].column) + " = ";
    assert Assignments(fs) == [Lit(head)] + ([Arg(fs[0].value)] + []);
    RenderLit(head, [Arg(fs[0].value)] + [], next);
    RenderArg(fs[0].value, [], next);
    var items := seq(|fs|, i requires 0 <= i < |fs| => Quote(fs[i].column) + " = " + Placeholder(next + i));
    assert items == [head + Placeholder(next)];
    assert FieldValues(fs) == [fs[0].value];
  }

  /** Assignments render as `"c" = $n` with consecutive placeholders, and
      the assigned values as parameters in the same order. */
  lemma {:induction false} AssignmentsRender(fs: seq<Field>, next: nat)
    ensures Render(Assignments(fs), next) == Compiled(AssignmentList(fs, next), FieldValues(fs))
    decreases |fs|
  {
    if |fs| == 1 {
      AssignmentsRenderOne(fs, next);
    } else if |fs| >= 2 {
      AssignmentsStep(fs, next);
      AssignmentsRender(fs[1..], next + 1);
      AssignmentListStep(fs, next);
      assert FieldValues(fs) == [fs[0].value] + FieldValues(fs[1..]);
    }
  }

  /** `Values(mapping)` is accepted exactly when every key names a column of
      the table. */
  lemma UpdateValuesChecksColumns(s: UpdateStmt, values: map<string, Value>)
    ensures s.Values(values).Success? <==> forall k :: k in values ==> k in Names(s.table.columns)
    ensures s.Values(values).Success? ==> s.Values(values).value == s.(values := values)
  {
    var names := set c | c in s.table.columns :: c.name;
    var unknown := values.Keys - names;
    forall k ensures k in names <==> k in Names(s.table.columns) {
      if k in names {
        var c :| c in s.table.columns && c.name == k;
        var i :| 0 <= i < |s.table.columns| && s.table.columns[i] == c;
        assert Names(s.table.columns)[i] == k;
      }
      if k in Names(s.table.columns) {
        var i :| 0 <= i < |s.table.columns| && Names(s.table.columns)[i] == k;
        assert s.table.columns[i] in s.table.columns;
      }
    }
    assert s.Values(values).Success? <==> unknown == {};
    if unknown != {} {
      var k :| k in unknown;
      assert k in values && k !in Names(s.table.columns);
    } else {
      forall k | k in values ensures k in Names(s.table.columns) {
        assert k !in unknown;
      }
    }
  }

  /** `Where(p)` on an update is accepted exactly when every column of `p`
      belongs to the statement's table, and then sets the condition to `p`
      and nothing else; otherwise it names a column of `p` from another
      table. */
  lemma UpdateWhereChecksColumns(s: UpdateStmt, p: Predicate)
    ensures s.Where(p).Success? <==> forall c :: c in PredicateColumns(p) ==> c.table == s.table
    ensures s.Where(p).Success? ==> s.Where(p).value == s.(where := Some(p))
    ensures s.Where(p).Failure? ==>
              exists c :: c in PredicateColumns(p) && c.table != s.table
                          && s.Where(p).error == ForeignColumnReference(c.table.name, c.name)
  {
    var f := ForeignColumn(p, s.table);
    if f.Some? {
      assert f.value in PredicateColumns(p) && f.value.table != s.table;
    }
  }

  /** An update compiles to `UPDATE "t" SET "c1" = $1, ..., "ck" = $k`
      over the mapped columns in declaration order, followed by its
      condition numbered from `$(k+1)`; the parameters are the mapped values
      in that order, then the condition's values. */
  lemma UpdateCompiles(s: UpdateStmt)
    ensures var fs := BindMap(s.table.columns, s.values);
            var w := Render(WhereTokens(s.where), 1 + |fs|);
            s.Compile() == Compiled("UPDATE " + Quote(s.table.name) + " SET " + AssignmentList(fs, 1) + w.sql,
                                    FieldValues(fs) + w.params)
  {
    var fs := BindMap(s.table.columns, s.values);
    var head := [Lit("UPDATE " + Quote(s.table.name) + " SET ")];
    RenderAppend(head + Assignments(fs), WhereTokens(s.where), 1);
    RenderAppend(head, Assignments(fs), 1);
    assert Render(head, 1) == Compiled("UPDATE " + Quote(s.table.name) + " SET ", []);
    AssignmentsRender(fs, 1);
    RenderParams(head + Assignments(fs), 1);
    RenderParams(Assignments(fs), 1);
  }
}
