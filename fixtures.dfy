/** The schemas declared in table_test.go and the exact outcomes its tests
    assert, stated about the model. */
module Fixtures {
  import opened Results
  import opened Sql
  import opened Schema
  import opened Statements
  import opened StatementProperties

  function IntegerType(notNull: bool, primaryKey: bool): ColumnType {
    ColumnType(Integer, 0, notNull, false, primaryKey)
  }

  function StringType(length: nat, unique: bool, notNull: bool): ColumnType {
    ColumnType(String, length, notNull, unique, false)
  }

  const PlainInt := IntegerType(false, false)
  const PlainStr := StringType(0, false, false)

  // ---------------------------------------------------------------------
  // The package-wide schemas.

  function UsersDecls(): seq<Decl> {
    [ Column("id", IntegerType(true, false)),
      Column("name", StringType(32, true, true)),
      Column("password", StringType(128, false, false)),
      PrimaryKey(["id"]) ]
  }

  function Users(): Table {
    Table("users",
          [ ColumnDef("id", IntegerType(true, false)),
            ColumnDef("name", StringType(32, true, true)),
            ColumnDef("password", StringType(128, false, false)) ],
          Some(["id"]), [["name"]])
  }

  function ViewsDecls(): seq<Decl> {
    [ Column("id", IntegerType(false, true)),
      Column("user_id", PlainInt),
      Column("url", PlainStr),
      Column("ip", PlainStr),
      Column("timestamp", ColumnType(Timestamp, 0, false, false, false)) ]
  }

  function EdgesDecls(): seq<Decl> {
    [ Column("a", PlainInt), Column("b", PlainInt), PrimaryKey(["a", "b"]) ]
  }

  function AttrsDecls(): seq<Decl> {
    [ Column("id", IntegerType(false, true)), Column("a", PlainInt), Column("b", PlainInt), Unique(["a", "b"]) ]
  }

  function Single(): Table {
    Table("single", [ColumnDef("name", PlainStr)], None, [])
  }

  /** A column declaration that passes every check extends the table built
      so far by that column. */
  lemma ColumnStep(name: string, init: seq<Decl>, t: Table, names: seq<string>, c: ColumnDef, t': Table)
    requires Build(name, init) == Success(t) && Names(t.columns) == names
    requires c.name != "" && c.name !in names && !(c.typ.primaryKey && t.pk.Some?)
    requires t'.name == t.name && t'.columns == t.columns + [c]
    requires t'.pk == (if c.typ.primaryKey then Some([c.name]) else t.pk)
    requires t'.uniques == (if c.typ.unique then t.uniques + [[c.name]] else t.uniques)
    ensures Build(name, init + [Column(c.name, c.typ)]) == Success(t')
    ensures Names(t'.columns) == names + [c.name]
  {
    BuildSnoc(name, init, Column(c.name, c.typ));
    NamesSnoc(t.columns, c);
  }

  lemma NamesSnoc(cols: seq<ColumnDef>, c: ColumnDef)
    ensures Names(cols + [c]) == Names(cols) + [c.name]
  {
  }

  /** A declaration that `Declare` accepts extends the table built so far. */
  lemma Step(name: string, init: seq<Decl>, t: Table, d: Decl, t': Table)
    requires Build(name, init) == Success(t) && Declare(t, d) == Success(t')
    ensures Build(name, init + [d]) == Success(t')
  {
    BuildSnoc(name, init, d);
  }

  /** `users`: declared name and string form, the key from the explicit
      `PrimaryKey("id")`, and the unique constraint from the flagged
      `name` column. */
  lemma UsersSchema()
    ensures Build("users", UsersDecls()) == Success(Users())
    ensures TableString(Users()) == "users"
    ensures Users().pk == Some(["id"]) && Users().uniques == [["name"]]
  {
    var c0 := ColumnDef("id", IntegerType(true, false));
    var c1 := ColumnDef("name", StringType(32, true, true));
    var c2 := ColumnDef("password", StringType(128, false, false));
    var d0, d1, d2, d3 := Column(c0.name, c0.typ), Column(c1.name, c1.typ), Column(c2.name, c2.typ), PrimaryKey(["id"]);
    var t1 := Table("users", [c0], None, []);
    var t2 := Table("users", [c0, c1], None, [["name"]]);
    var t3 := Table("users", [c0, c1, c2], None, [["name"]]);
    ColumnStep("users", [], EmptyTable("users"), [], c0, t1);
    assert [] + [d0] == [d0];
    ColumnStep("users", [d0], t1, ["id"], c1, t2);
    assert [d0] + [d1] == [d0, d1];
    ColumnStep("users", [d0, d1], t2, ["id", "name"], c2, t3);
    assert [d0, d1] + [d2] == [d0, d1, d2];
    BuildSnoc("users", [d0, d1, d2], d3);
    assert FirstUnknown(["id"], ["id", "name", "password"]) == None;
    assert UsersDecls() == [d0, d1, d2] + [d3];
  }

  /** `users.C["id"]` carries the name `id` and points back at `users`. */
  lemma UsersColumnAccessor()
    ensures C(Users(), "id") == Some(ColumnElem("id", IntegerType(true, false), Users()))
  {
  }

  /** The first three columns of `views`. */
  lemma ViewsColumns()
    ensures Build("views", ViewsDecls()[..3])
         == Success(Table("views", [ColumnDef("id", IntegerType(false, true)), ColumnDef("user_id", PlainInt),
                                    ColumnDef("url", PlainStr)], Some(["id"]), []))
    ensures Names([ColumnDef("id", IntegerType(false, true)), ColumnDef("user_id", PlainInt), ColumnDef("url", PlainStr)])
         == ["id", "user_id", "url"]
  {
    var c0 := ColumnDef("id", IntegerType(false, true));
    var c1 := ColumnDef("user_id", PlainInt);
    var c2 := ColumnDef("url", PlainStr);
    var d0, d1, d2 := Column(c0.name, c0.typ), Column(c1.name, c1.typ), Column(c2.name, c2.typ);
    var pk := Some(["id"]);
    ColumnStep("views", [], EmptyTable("views"), [], c0, Table("views", [c0], pk, []));
    assert [] + [d0] == [d0];
    ColumnStep("views", [d0], Table("views", [c0], pk, []), ["id"], c1, Table("views", [c0, c1], pk, []));
    assert [d0] + [d1] == [d0, d1];
    ColumnStep("views", [d0, d1], Table("views", [c0, c1], pk, []), ["id", "user_id"], c2,
               Table("views", [c0, c1, c2], pk, []));
    assert [d0, d1] + [d2] == ViewsDecls()[..3];
  }

  /** `views`: the key comes from the column flagged as primary key. */
  lemma ViewsSchema()
    ensures Build("views", ViewsDecls()).Success?
    ensures Build("views", ViewsDecls()).value.pk == Some(["id"])
    ensures Build("views", ViewsDecls()).value.uniques == []
  {
    var c0 := ColumnDef("id", IntegerType(false, true));
    var c1 := ColumnDef("user_id", PlainInt);
    var c2 := ColumnDef("url", PlainStr);
    var c3 := ColumnDef("ip", PlainStr);
    var c4 := ColumnDef("timestamp", ColumnType(Timestamp, 0, false, false, false));
    var d := ViewsDecls();
    var pk := Some(["id"]);
    ViewsColumns();
    var t3 := Table("views", [c0, c1, c2], pk, []);
    ColumnStep("views", d[..3], t3, ["id", "user_id", "url"], c3, Table("views", [c0, c1, c2, c3], pk, []));
    assert d[..3] + [d[3]] == d[..4];
    ColumnStep("views", d[..4], Table("views", [c0, c1, c2, c3], pk, []), ["id", "user_id", "url", "ip"], c4,
               Table("views", [c0, c1, c2, c3, c4], pk, []));
    assert d[..4] + [d[4]] == d;
  }

  /** `edges`: a composite primary key is accepted. */
  lemma EdgesSchema()
    ensures Build("edges", EdgesDecls()).Success?
    ensures Build("edges", EdgesDecls()).value.pk == Some(["a", "b"])
  {
    var a := ColumnDef("a", PlainInt);
    var b := ColumnDef("b", PlainInt);
    var d0, d1, d2 := Column(a.name, a.typ), Column(b.name, b.typ), PrimaryKey(["a", "b"]);
    ColumnStep("edges", [], EmptyTable("edges"), [], a, Table("edges", [a], None, []));
    assert [] + [d0] == [d0];
    ColumnStep("edges", [d0], Table("edges", [a], None, []), ["a"], b, Table("edges", [a, b], None, []));
    assert [d0] + [d1] == [d0, d1];
    BuildSnoc("edges", [d0, d1], d2);
    assert FirstUnknown(["a", "b"], ["a", "b"]) == None;
    assert EdgesDecls() == [d0, d1] + [d2];
  }

  const AttrsColumnDefs := [ColumnDef("id", IntegerType(false, true)), ColumnDef("a", PlainInt), ColumnDef("b", PlainInt)]

  /** The three columns of `attrs`, before its unique constraint. */
  lemma AttrsColumns()
    ensures Build("attrs", AttrsDecls()[..3]) == Success(Table("attrs", AttrsColumnDefs, Some(["id"]), []))
    ensures Names(AttrsColumnDefs) == ["id", "a", "b"]
  {
    var id, a, b := AttrsColumnDefs[0], AttrsColumnDefs[1], AttrsColumnDefs[2];
    var d0, d1, d2 := Column(id.name, id.typ), Column(a.name, a.typ), Column(b.name, b.typ);
    var pk := Some(["id"]);
    var t0, t1, t2, t3 := EmptyTable("attrs"), Table("attrs", [id], pk, []), Table("attrs", [id, a], pk, []), Table("attrs", [id, a, b], pk, []);
    assert Declare(t0, d0) == Success(t1) by {
      assert Names([]) == [];
      assert [] + [id] == [id];
    }
    Step("attrs", [], t0, d0, t1);
    assert [] + [d0] == [d0];
    assert Declare(t1, d1) == Success(t2) by {
      assert Names([id]) == ["id"];
      assert [id] + [a] == [id, a];
    }
    Step("attrs", [d0], t1, d1, t2);
    assert [d0] + [d1] == [d0, d1];
    assert Declare(t2, d2) == Success(t3) by {
      assert Names([id, a]) == ["id", "a"];
      assert [id, a] + [b] == [id, a, b];
    }
    Step("attrs", [d0, d1], t2, d2, t3);
    assert [d0, d1] + [d2] == AttrsDecls()[..3];
    assert [id, a, b] == AttrsColumnDefs;
  }

  /** `attrs`: the key from a flagged column and the explicit
      `Unique("a", "b")`. */
  lemma AttrsSchema()
    ensures Build("attrs", AttrsDecls()).Success?
    ensures Build("attrs", AttrsDecls()).value.pk == Some(["id"])
    ensures Build("attrs", AttrsDecls()).value.uniques == [["a", "b"]]
  {
    var t3 := Table("attrs", AttrsColumnDefs, Some(["id"]), []);
    AttrsColumns();
    assert Declare(t3, Unique(["a", "b"])) == Success(t3.(uniques := [["a", "b"]])) by {
      assert "a" in ["id", "a", "b"] && "b" in ["id", "a", "b"];
      assert FirstUnknown(["a", "b"], ["id", "a", "b"]) == None;
      assert t3.uniques + [["a", "b"]] == [["a", "b"]];
    }
    Step("attrs", AttrsDecls()[..3], t3, Unique(["a", "b"]), t3.(uniques := [["a", "b"]]));
    assert AttrsDecls() == AttrsDecls()[..3] + [Unique(["a", "b"])];
  }

  /** `single` and `none`: one column, and no columns at all, are accepted. */
  lemma SmallSchemas()
    ensures Build("single", [Column("name", PlainStr)]) == Success(Single())
    ensures Build("none", []) == Success(Table("none", [], None, []))
  {
    var c := Column("name", PlainStr);
    BuildSnoc("single", [], c);
    assert [] + [c] == [c];
    assert Declare(EmptyTable("single"), c) == Success(Single()) by {
      assert Names([]) == [];
      assert [] + [ColumnDef("name", PlainStr)] == [ColumnDef("name", PlainStr)];
    }
  }

  /** A repeated column name and an empty column name are refused. */
  lemma ImproperColumns()
    ensures Build("bad", [Column("a", PlainStr), Column("a", PlainStr)]) == Failure(DuplicateColumn("a"))
    ensures Build("bad", [Column("", PlainStr)]) == Failure(EmptyColumnName)
  {
    var a := Column("a", PlainStr);
    BuildSnoc("bad", [], a);
    assert [] + [a] == [a];
    BuildSnoc("bad", [a], a);
    assert Names([ColumnDef("a", PlainStr)]) == ["a"];

    BuildSnoc("bad", [], Column("", PlainStr));
    assert [] + [Column("", PlainStr)] == [Column("", PlainStr)];
  }

  /** Constraints that name a column the table does not have are refused. */
  lemma ImproperConstraints()
    ensures Build("bad", [Column("okay", PlainStr), PrimaryKey(["not"])]) == Failure(UnknownColumn("not"))
    ensures Build("bad", [Column("okay", PlainStr), Unique(["not"])]) == Failure(UnknownColumn("not"))
  {
    var okay := Column("okay", PlainStr);
    BuildSnoc("bad", [], okay);
    assert [] + [okay] == [okay];
    assert Names([ColumnDef("okay", PlainStr)]) == ["okay"];
    BuildSnoc("bad", [okay], PrimaryKey(["not"]));
    BuildSnoc("bad", [okay], Unique(["not"]));
  }

  /** Two columns whose types each declare a primary key are refused. */
  lemma ImproperPrimaryKeys()
    ensures Build("bad", [Column("id", IntegerType(false, true)), Column("id2", IntegerType(false, true))]) == Failure(MultiplePrimaryKeys)
  {
    var id := Column("id", IntegerType(false, true));
    var id2 := Column("id2", IntegerType(false, true));
    BuildSnoc("bad", [], id);
    assert [] + [id] == [id];
    assert Names([ColumnDef("id", IntegerType(false, true))]) == ["id"];
    BuildSnoc("bad", [id], id2);
  }

  // ---------------------------------------------------------------------
  // Compiled statements.

  /** The first three placeholders, spelled out. */
  lemma SmallPlaceholders()
    ensures Placeholder(1) == "$1" && Placeholder(2) == "$2" && Placeholder(3) == "$3"
  {
    assert NatToString(1) == [DigitChar(1)] == "1";
    assert NatToString(2) == [DigitChar(2)] == "2";
    assert NatToString(3) == [DigitChar(3)] == "3";
  }

  lemma PlaceholderListOne(first: nat)
    ensures PlaceholderList(first, 1) == Placeholder(first)
  {
    var items := seq(1, i requires 0 <= i < 1 => Placeholder(first + i));
    assert items == [Placeholder(first)];
  }

  lemma JoinThree(a: string, b: string, c: string, sep: string)
    ensures Join([a, b, c], sep) == a + sep + b + sep + c
  {
    assert [b, c][1..] == [c];
    assert Join([b, c], sep) == b + sep + c;
    assert [a, b, c][1..] == [b, c];
  }

  const UserRecord := [Field("id", Int(1)), Field("name", Str("admin")), Field("password", Str("secret"))]

  /** The `user` record binds all three columns of `users`, in order. */
  lemma UserRecordBinds()
    ensures BindRecord(Users().columns, UserRecord) == UserRecord
    ensures FieldNames(UserRecord) == ["id", "name", "password"]
    ensures FieldValues(UserRecord) == [Int(1), Str("admin"), Str("secret")]
  {
    var cols := Users().columns;
    assert cols[1..] == [cols[1], cols[2]] && cols[1..][1..] == [cols[2]] && cols[1..][1..][1..] == [];
  }

  /** One and three holes numbered from 1. */
  lemma FirstPlaceholderLists()
    ensures PlaceholderList(1, 1) == "$1"
    ensures PlaceholderList(1, 3) == "$1, $2, $3"
  {
    SmallPlaceholders();
    PlaceholderListOne(1);
    PlaceholderListStep(1, 3);
    PlaceholderListStep(2, 2);
    PlaceholderListOne(3);
  }

  lemma UserInsertLists()
    ensures QuotedList(["id", "name", "password"]) == "\"id\", \"name\", \"password\""
  {
    var names := ["id", "name", "password"];
    var items := seq(|names|, i requires 0 <= i < |names| => Quote(names[i]));
    assert items == [Quote("id"), Quote("name"), Quote("password")];
    JoinThree(Quote("id"), Quote("name"), Quote("password"), ", ");
  }

  /** An insert whose binding, quoted names and placeholders are known. */
  lemma InsertFrom(t: Table, record: seq<Field>, name: string, cols: string, holes: string, params: seq<Value>)
    requires BindRecord(t.columns, record) == record
    requires Quote(t.name) == name
    requires QuotedList(FieldNames(record)) == cols
    requires PlaceholderList(1, |record|) == holes
    requires FieldValues(record) == params
    ensures Insert(t).Values(record).Compile()
         == Compiled("INSERT INTO " + name + " (" + cols + ") VALUES (" + holes + ")", params)
  {
    InsertCompiles(t, record);
  }

  /** The full `user` record of TestTableInsert. */
  lemma InsertUser()
    ensures Insert(Users()).Values(UserRecord).Compile()
              == Compiled("INSERT INTO \"users\" (\"id\", \"name\", \"password\") VALUES ($1, $2, $3)",
                          [Int(1), Str("admin"), Str("secret")])
  {
    UserRecordBinds();
    UserInsertLists();
    FirstPlaceholderLists();
    InsertFrom(Users(), UserRecord, "\"users\"", "\"id\", \"name\", \"password\"", "$1, $2, $3",
               [Int(1), Str("admin"), Str("secret")]);
    assert "INSERT INTO " + "\"users\"" + " (" == "INSERT INTO \"users\" (";
    UserInsertText();
  }

  lemma UserInsertText()
    ensures "INSERT INTO \"users\" (" + "\"id\", \"name\", \"password\"" + ") VALUES (" + "$1, $2, $3" + ")"
         == "INSERT INTO \"users\" (\"id\", \"name\", \"password\") VALUES ($1, $2, $3)"
  {
    assert "INSERT INTO \"users\" (" + "\"id\", \"name\", \"password\""
        == "INSERT INTO \"users\" (\"id\", \"name\", \"password\"";
    assert "INSERT INTO \"users\" (\"id\", \"name\", \"password\"" + ") VALUES ("
        == "INSERT INTO \"users\" (\"id\", \"name\", \"password\") VALUES (";
    assert "INSERT INTO \"users\" (\"id\", \"name\", \"password\") VALUES (" + "$1, $2, $3"
        == "INSERT INTO \"users\" (\"id\", \"name\", \"password\") VALUES ($1, $2, $3";
  }

  /** The untagged `struct{ Name string }` of TestTableInsert, which binds
      the `name` column of `single`. */
  lemma InsertSingle()
    ensures Insert(Single()).Values([Field("name", Str("hello"))]).Compile()
              == Compiled("INSERT INTO \"single\" (\"name\") VALUES ($1)", [Str("hello")])
  {
    var one := [Field("name", Str("hello"))];
    InsertCompiles(Single(), one);
    assert BindRecord(Single().columns, one) == one by {
      assert Single().columns[1..] == [];
    }
    FirstPlaceholderLists();
    assert FieldNames(one) == ["name"];
    assert FieldValues(one) == [Str("hello")];
    assert QuotedList(["name"]) == "\"name\"" by {
      var items := seq(1, i requires 0 <= i < 1 => Quote(["name"][i]));
      assert items == [Quote("name")];
    }
    assert Quote(Single().name) == "\"single\"";
    SingleInsertText();
  }

  lemma SingleInsertText()
    ensures "INSERT INTO " + "\"single\"" + " (" + "\"name\"" + ") VALUES (" + "$1" + ")"
         == "INSERT INTO \"single\" (\"name\") VALUES ($1)"
  {
    assert "INSERT INTO " + "\"single\"" + " (" == "INSERT INTO \"single\" (";
  }

  /** TestTableDelete: the whole table, then the row whose `id` equals 1. */
  lemma DeleteScenarios()
    ensures Delete(Users()).Compile() == Compiled("DELETE FROM \"users\"", [])
    ensures Delete(Users()).Where(Equals(C(Users(), "id").value, Int(1))).Success?
    ensures Delete(Users()).Where(Equals(C(Users(), "id").value, Int(1))).value.Compile()
              == Compiled("DELETE FROM \"users\" WHERE \"users\".\"id\" = $1", [Int(1)])
  {
    DeleteAll(Users());
    UsersColumnAccessor();
    DeleteWhereEquals(Users(), "id", Int(1));
    DeleteText();
  }

  lemma DeleteText()
    ensures "DELETE FROM " + Quote("users") == "DELETE FROM \"users\""
    ensures "DELETE FROM " + Quote("users") + " WHERE " + Qualified("users", "id") + " = $1"
         == "DELETE FROM \"users\" WHERE \"users\".\"id\" = $1"
  {
    assert Quote("users") == "\"users\"";
    assert Qualified("users", "id") == "\"users\".\"id\"";
    assert "DELETE FROM \"users\"" + " WHERE " == "DELETE FROM \"users\" WHERE ";
  }

  /** `Update().Values({"name": ...})` on `users` binds just the `name` column. */
  lemma UpdateBindsName()
    ensures Update(Users()).Values(map["name" := Str("Jabroni")]).Success?
    ensures BindMap(Users().columns, map["name" := Str("Jabroni")]) == [Field("name", Str("Jabroni"))]
  {
    var m := map["name" := Str("Jabroni")];
    UpdateValuesChecksColumns(Update(Users()), m);
    var cols := Users().columns;
    assert Names(cols) == ["id", "name", "password"];
    assert cols[1..] == [cols[1], cols[2]] && cols[1..][1..] == [cols[2]] && cols[1..][1..][1..] == [];
    assert "id" !in m && "password" !in m;
  }

  /** TestTableUpdate: a mapping with the one key `name`. */
  lemma UpdateScenario()
    ensures Update(Users()).Values(map["name" := Str("Jabroni")]).Success?
    ensures Update(Users()).Values(map["name" := Str("Jabroni")]).value.Compile()
              == Compiled("UPDATE \"users\" SET \"name\" = $1", [Str("Jabroni")])
  {
    var m := map["name" := Str("Jabroni")];
    UpdateBindsName();
    var s := Update(Users()).Values(m).value;
    assert s == UpdateStmt(Users(), m, None);
    UpdateCompiles(s);
    var fs := [Field("name", Str("Jabroni"))];
    assert AssignmentList(fs, 1) == "\"name\" = $1" by {
      var items := seq(|fs|, i requires 0 <= i < |fs| => Quote(fs[i].column) + " = " + Placeholder(1 + i));
      SmallPlaceholders();
      assert Quote("name") == "\"name\"";
      assert "\"name\"" + " = " + "$1" == "\"name\" = $1";
      assert items == ["\"name\" = $1"];
    }
    assert FieldValues(fs) == [Str("Jabroni")];
    WhereRenders(None, 2);
    UpdateText();
  }

  lemma UpdateText()
    ensures "UPDATE " + Quote("users") + " SET " + "\"name\" = $1" + "" == "UPDATE \"users\" SET \"name\" = $1"
  {
    assert Quote("users") == "\"users\"";
    assert "UPDATE " + "\"users\"" + " SET " == "UPDATE \"users\" SET ";
  }
}
