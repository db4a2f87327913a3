# aspect: table schemas and default-dialect statement compilation

This project models two tightly linked parts of the Go SQL toolkit
`aspect`, as its table tests pin them down.

1. **Schema construction.** `Table(name, Column(...), PrimaryKey(...), Unique(...))`
   applies its declarations in order, one at a time. It records:
   - the table name;
   - the columns, in declaration order;
   - the primary key: an explicit `PrimaryKey(...)`, or a column whose type
     is flagged `PrimaryKey: true`;
   - the unique constraints: each explicit `Unique(...)`, plus one
     single-column constraint per column flagged `Unique: true`.

   The library panics when a schema is improper. Here construction returns
   `Failure(error)` instead, in four cases:
   - an empty column name;
   - a repeated column name;
   - a constraint that names a column not declared before it;
   - a second primary key, from either source.

   The construction is the loop `Schema.NewTable`. That loop is proved equal
   to the prefix-recursive specification `Schema.Build`. `Build` is in turn
   characterised declaratively (`SchemaProperties.BuildCharacterized`): it
   succeeds exactly on valid declaration lists, and then records exactly
   the declared columns, key and uniques. The accessor `t.C[name]`
   (`Schema.C`) returns the named column with a reference back to its table.
2. **Statement compilation for the default dialect.** `Insert().Values(record)`,
   `Update().Values(mapping)` and `Delete().Where(predicate)` are immutable
   statement values. Compiling one produces SQL text and an ordered
   parameter list:
   - identifiers are delimited with double quotes (ISO/IEC 9075-2,
     section 5.2);
   - predicate columns are qualified as `"table"."column"`;
   - every bound value becomes a positional placeholder `$1, $2, ...`,
     PostgreSQL style, and is never written into the text.

   Each statement is lowered to a template of literal text and holes
   (`Sql.Token`). One renderer (`Sql.Render`) numbers the holes and collects
   the parameters. The properties about placeholder numbering are proved
   once, about that renderer.

Modules:
- `Results`: Option and Result.
- `Sql`: values, numerals, quoting, rendering.
- `Schema`: the data model, `Declare`, `Build`, `NewTable` and `C`.
- `SchemaProperties`: the characterisation and the invariant of constructed
  tables.
- `Statements`: predicates, record and mapping binding, and the Insert,
  Update and Delete statements.
- `StatementProperties`: what compilation promises.
- `Fixtures`: the schemas and scenarios of the table tests, each with its
  exact expected outcome.

## Model

| member | source | states |
|---|---|---|
| Schema.NewTable | table_test.go:17-22 | The loop over the declarations returns exactly `Build(name, decls)`. It keeps a by-name column map alongside the column list, primary key and unique list, and stops at the first failing declaration. |
| Schema.FindUnknown | table_test.go:91-101 | Returns the position of the first key missing from the column map, with every earlier key present, or None when every key is a column. |
| Schema.FirstUnknown | table_test.go:91-101 | None exactly when every key names a column; otherwise a key that names no column. |
| Schema.C | table_test.go:62-64 | `C[name]` is defined exactly when `name` is a column of the table. The column it returns carries that name and that column's type, and points back at the table. |
| SchemaProperties.BuildCharacterized | table_test.go:79-110 | Construction succeeds iff column names are non-empty and distinct, every constraint names columns declared before it, and at most one declaration gives a primary key. On success the table has the declared name, the declared columns in order, the declared key and the declared uniques in order. |
| SchemaProperties.BuildKeepsName | table_test.go:58-59 | A constructed table has the declared name, and its `String()` is that name. |
| SchemaProperties.DeclarePreservesValid | table_test.go:79-110 | Each accepted declaration keeps the table invariant: names non-empty and distinct, and every key and unique constraint names columns of the table. |
| SchemaProperties.BuildValid | table_test.go:79-110 | Every table construction returns satisfies that invariant. |
| SchemaProperties.RejectsDuplicateColumn | table_test.go:79-83 | Any declaration list with two columns of the same name is refused. |
| SchemaProperties.RejectsEmptyColumnName | table_test.go:85-89 | Any declaration list with a column named "" is refused. |
| SchemaProperties.RejectsUnknownColumn | table_test.go:91-101 | Any list where a PrimaryKey or Unique names a column not declared before it is refused. |
| SchemaProperties.RejectsSecondPrimaryKey | table_test.go:103-110 | Any list with two primary-key sources (flagged columns or PrimaryKey declarations) is refused. |
| Fixtures.UsersSchema | table_test.go:58-76 | `users` is built with name "users", `String()` "users", pk `["id"]` from `PrimaryKey("id")`, and uniques `[["name"]]` from the flagged column. |
| Fixtures.UsersColumnAccessor | table_test.go:62-64 | `users.C["id"]` is the column named "id" with its type, pointing back at `users`. |
| Fixtures.ViewsSchema | table_test.go:30-36 | `views` is accepted with pk `["id"]` from the flagged column and no uniques. |
| Fixtures.EdgesSchema | table_test.go:38-42 | `edges` is accepted with the composite key `["a", "b"]`. |
| Fixtures.AttrsSchema | table_test.go:69-73 | `attrs` is accepted with pk `["id"]` from the flagged column and uniques `[["a", "b"]]`. |
| Fixtures.SmallSchemas | table_test.go:9-14 | `single` is accepted with its one column, and `none`, with no columns at all, is accepted too. |
| Fixtures.ImproperColumns | table_test.go:79-89 | A repeated column "a" fails with DuplicateColumn("a"); a column named "" fails with EmptyColumnName. |
| Fixtures.ImproperConstraints | table_test.go:91-101 | `PrimaryKey("not")` and `Unique("not")` over a table whose only column is "okay" both fail with UnknownColumn("not"). |
| Fixtures.ImproperPrimaryKeys | table_test.go:103-110 | Two columns flagged PrimaryKey fail with MultiplePrimaryKeys. |
| Sql.PlaceholderInjective | table_test.go:122 | Distinct parameter positions never share a placeholder. |
| Sql.NatToStringRoundTrip | table_test.go:122 | The decimal numeral of a placeholder number reads back as that number. |
| Sql.RenderParams | table_test.go:121-127 | The parameters of a rendered template are the values of its holes, in template order. |
| Sql.RenderAppend | table_test.go:156-160 | Rendering a concatenation renders the first part, then the second part numbered from where the first stopped. |
| Sql.RenderLockStep | table_test.go:121-127 | The hole with j holes before it is written `$(next+j)`, and parameter j is its value. |
| Sql.RenderTextIgnoresValues | table_test.go:145-149 | The SQL text depends only on the template's shape, never on the bound values. |
| Sql.ArgListRenders | table_test.go:122 | A list of n holes renders as `$next, ..., $(next+n-1)`, with the values as parameters in the same order. |
| Statements.ForeignColumn | table_test.go:147 | None exactly when every column of the predicate belongs to the table; otherwise a column of the predicate from another table. |
| StatementProperties.BindRecordInOrder | table_test.go:24-28 | A record binds the table's columns it has a field for. They come as a subsequence of the columns in declaration order, each with that field's value. |
| StatementProperties.BindRecordComplete | table_test.go:121-127 | A record with a field for every column binds every column, in declaration order. |
| StatementProperties.BindRecordIgnoresFieldOrder | table_test.go:24-28 | Two records giving the same value for every name bind the same columns and values. |
| StatementProperties.BindMapInOrder | table_test.go:156-160 | An update binds exactly the mapping's keys that are columns. They come in declaration order, whatever the mapping, each with its mapped value. |
| StatementProperties.InsertCompiles | table_test.go:121-134 | `INSERT INTO "t" (<bound columns quoted>) VALUES ($1, ..., $k)`, with the bound values as parameters in column order. |
| StatementProperties.InsertIgnoresFieldOrder | table_test.go:121-134 | The compiled insert depends on what the record binds, not on the order of its fields. |
| StatementProperties.InsertFullRecord | table_test.go:121-127 | With a field for every column, the insert lists every column in declaration order. It uses `$1..$n`, and parameter i is the value of column i. |
| StatementProperties.PredicateParams | table_test.go:145-149 | A predicate's parameters are its compared values, left to right, wherever its numbering starts. |
| StatementProperties.CompareRenders | table_test.go:146 | A comparison renders as `"table"."column" op $next`, with the compared value as its one parameter. |
| StatementProperties.ConnectiveRenders | table_test.go:145-149 | `(left AND right)` or `(left OR right)`: the right operand is numbered after the left, and the parameters are the left values then the right values. |
| StatementProperties.WhereRenders | table_test.go:145-149 | No condition renders as nothing; a condition renders as ` WHERE <predicate>` with the predicate's values as parameters. |
| StatementProperties.DeleteAll | table_test.go:142 | `Delete()` compiles to `DELETE FROM "t"` with no parameters. |
| StatementProperties.DeleteWhereCompiles | table_test.go:145-149 | `Where(p)` is accepted iff every column of p belongs to the table. The delete then compiles to `DELETE FROM "t" WHERE <p>`, numbered from `$1`, with p's values as parameters. |
| StatementProperties.DeleteWhereEquals | table_test.go:145-149 | `Delete().Where(C[name].Equals(v))` is accepted and compiles to `DELETE FROM "t" WHERE "t"."name" = $1` with parameters `[v]`. |
| StatementProperties.UpdateWhereChecksColumns | table_test.go:145-149 | `Update().Where(p)` is accepted iff every column of p belongs to the table, and then records p as the condition, nothing else changed; otherwise it reports a column of p from another table. |
| StatementProperties.AssignmentsRender | table_test.go:157 | Assignments render as `"c1" = $n, "c2" = $(n+1), ...`, with the assigned values as parameters in the same order. |
| StatementProperties.UpdateValuesChecksColumns | table_test.go:158 | `Values(mapping)` is accepted iff every key names a column, and then records exactly that mapping. |
| StatementProperties.UpdateCompiles | table_test.go:156-160 | `UPDATE "t" SET` assigns the mapped columns in declaration order from `$1`, then the condition continues the numbering. The parameters are the mapped values, then the condition's values. |
| Fixtures.UserRecordBinds | table_test.go:24-28 | The `user` record binds `id`, `name` and `password` of `users`, in that order, with values 1, "admin" and "secret". |
| Fixtures.InsertUser | table_test.go:121-127 | Exactly `INSERT INTO "users" ("id", "name", "password") VALUES ($1, $2, $3)` with parameters (1, "admin", "secret"). |
| Fixtures.InsertSingle | table_test.go:129-134 | Exactly `INSERT INTO "single" ("name") VALUES ($1)` with parameters ("hello"). |
| Fixtures.DeleteScenarios | table_test.go:141-149 | Exactly `DELETE FROM "users"` with no parameters, and `DELETE FROM "users" WHERE "users"."id" = $1` with parameters (1). |
| Fixtures.UpdateBindsName | table_test.go:158 | The mapping `{"name": "Jabroni"}` is accepted on `users` and binds just the `name` column. |
| Fixtures.UpdateScenario | table_test.go:156-160 | Exactly `UPDATE "users" SET "name" = $1` with parameters ("Jabroni"). |

## Left out

- The integration test around a live database (postgres/select_test.go) is not part of this model. Connecting, transactions, execution, rows affected and result mapping are I/O against a driver.
- Discovering record fields by reflection over `db:"..."` struct tags is not modelled. A record is an explicit ordered list of (column name, value) fields. The untagged `struct{ Name string }` of the single-column insert appears only as its observed binding, the field `name`.
- DDL generation (`Create()`), `RETURNING`, `Select`, `OrderBy` and other dialects are not modelled. No assertion in the table tests covers them. Of a column type, only the `PrimaryKey` and `Unique` flags have an effect here: they feed the primary key and the unique constraints. The kind (`Integer`, `String`, `Timestamp`), the length and the `NotNull` flag are carried but have no effect, because only DDL would use them.
- The implementation of `Table`, `Column` and the compiler is not part of this model. The model follows the behaviour the tests assert, so the following points are modelling choices:
  - declarations are applied in argument order, so a constraint may name only columns declared before it;
  - the rejection checks run in a fixed order, which decides which error a list with several faults reports: for a column, empty name, then duplicate, then second key; for `PrimaryKey(...)`, second key before unknown column;
  - `PrimaryKey()` and `Unique()` with no column names are accepted: an empty key is recorded as the table's primary key, so a later key declaration fails as a second key, and an empty unique constraint is recorded as `[]`;
  - a table name is not checked, so `Table("")` is accepted;
  - `.Where` replaces any earlier condition rather than combining with it;
  - a column from another table in `.Where`, and an unknown key in `Update().Values`, make the builder return a failure;
  - a record field that names no column of the table is ignored by `Insert().Values`, whereas `Update().Values` refuses an unknown key;
  - a column belongs to a table when the table values are equal, so a column taken from a different but identical table is accepted by `.Where`, where Go would compare the table by reference;
  - only `=` (`Equals`) appears in the tests; the other comparison operators (`!=`, `<`, `<=`, `>`, `>=`) and their spellings are assumed;
  - compound conditions render as `(left AND right)` and `(left OR right)`;
  - an Insert or Update that binds no column renders with empty lists.
- StatementProperties.InsertCompiles: a record that lacks a field for some column leaves that column out of the insert. What the library does for such a record is not asserted, so only full records are related to every column (`InsertFullRecord`).
- Sql.Quote: an embedded double quote in an identifier is not doubled. None of the names used is affected.
- Sql.Value: integers are unbounded, not Go's 64-bit `int64`. Values are only carried as parameters, so no arithmetic is done on them.
- The `NewTester` helper, the assertion library and sharing statements across goroutines are not modelled.
