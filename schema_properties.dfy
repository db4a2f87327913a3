/** What `Table(name, ...)` promises, stated independently of the
    declaration-by-declaration construction: which declaration lists it
    accepts, what the accepted table records, and the invariant every
    constructed table keeps. */
module SchemaProperties {
  import opened Results
  import opened Schema

  // ---------------------------------------------------------------------
  // Which declaration lists are accepted.

  predicate DeclaresPrimaryKey(d: Decl) {
    (d.Column? && d.typ.primaryKey) || d.PrimaryKey?
  }

  /** Some declaration before position `i` is a column named `n`. */
  ghost predicate DeclaredBefore(decls: seq<Decl>, i: int, n: string) {
    exists j :: 0 <= j < i && j < |decls| && decls[j].Column? && decls[j].name == n
  }

  /** The rules a declaration list must follow: column names are non-empty
      and distinct, a constraint names only columns declared before it, and
      at most one declaration (a column flag or an explicit constraint)
      gives the primary key. */
  ghost predicate ValidDecls(decls: seq<Decl>) {
    && (forall i :: 0 <= i < |decls| && decls[i].Column? ==> decls[i].name != "")
    && (forall i, j :: 0 <= i < j < |decls| && decls[i].Column? && decls[j].Column?
          ==> decls[i].name != decls[j].name)
    && (forall i, k :: 0 <= i < |decls| && !decls[i].Column? && 0 <= k < |decls[i].keys|
          ==> DeclaredBefore(decls, i, decls[i].keys[k]))
    && (forall i, j :: 0 <= i < j < |decls| && DeclaresPrimaryKey(decls[i])
          ==> !DeclaresPrimaryKey(decls[j]))
  }

  // ---------------------------------------------------------------------
  // What an accepted declaration list records.

  function DeclaredColumns(decls: seq<Decl>): seq<ColumnDef>
    decreases |decls|
  {
    if decls == [] then []
    else
      var d := decls[|decls| - 1];
      DeclaredColumns(decls[..|decls| - 1]) + (if d.Column? then [ColumnDef(d.name, d.typ)] else [])
  }

  /** The key given by the last declaration that gives one: a flagged column
      gives the key made of that column alone. */
  function DeclaredPrimaryKey(decls: seq<Decl>): Option<seq<string>>
    decreases |decls|
  {
    if decls == [] then None
    else
      var d := decls[|decls| - 1];
      if d.PrimaryKey? then Some(d.keys)
      else if d.Column? && d.typ.primaryKey then Some([d.name])
      else DeclaredPrimaryKey(decls[..|decls| - 1])
  }

  /** Unique constraints in declaration order: an explicit `Unique(...)`
      contributes its list, a column flagged unique the list of its name. */
  function DeclaredUniques(decls: seq<Decl>): seq<seq<string>>
    decreases |decls|
  {
    if decls == [] then []
    else
      var d := decls[|decls| - 1];
      DeclaredUniques(decls[..|decls| - 1])
        + (if d.Unique? then [d.keys] else if d.Column? && d.typ.unique then [[d.name]] else [])
  }

  // ---------------------------------------------------------------------
  // Facts about the reference definitions.

  lemma {:induction false} DeclaredColumnNames(decls: seq<Decl>, n: string)
    ensures n in Names(DeclaredColumns(decls)) <==> DeclaredBefore(decls, |decls|, n)
    decreases |decls|
  {
    if decls != [] {
      var init := decls[..|decls| - 1];
      var d := decls[|decls| - 1];
      DeclaredColumnNames(init, n);
      var extra := if d.Column? then [ColumnDef(d.name, d.typ)] else [];
      assert Names(DeclaredColumns(decls)) == Names(DeclaredColumns(init)) + Names(extra);
      if DeclaredBefore(init, |init|, n) {
        var j :| 0 <= j < |init| && init[j].Column? && init[j].name == n;
        assert decls[j] == init[j];
      }
      if DeclaredBefore(decls, |decls|, n) && !(d.Column? && d.name == n) {
        var j :| 0 <= j < |decls| && decls[j].Column? && decls[j].name == n;
        assert j < |init| && init[j] == decls[j];
      }
    }
  }

  lemma {:induction false} DeclaredPrimaryKeyExists(decls: seq<Decl>)
    ensures DeclaredPrimaryKey(decls).Some?
        <==> exists j :: 0 <= j < |decls| && DeclaresPrimaryKey(decls[j])
    decreases |decls|
  {
    if decls != [] {
      var init := decls[..|decls| - 1];
      DeclaredPrimaryKeyExists(init);
      if exists j :: 0 <= j < |init| && DeclaresPrimaryKey(init[j]) {
        var j :| 0 <= j < |init| && DeclaresPrimaryKey(init[j]);
        assert decls[j] == init[j];
      }
      if exists j :: 0 <= j < |decls| && DeclaresPrimaryKey(decls[j]) {
        var j :| 0 <= j < |decls| && DeclaresPrimaryKey(decls[j]);
        if j < |init| {
          assert init[j] == decls[j];
        }
      }
    }
  }

  /** The step condition: what the last declaration must satisfy given the
      ones before it. */
  ghost predicate StepOk(init: seq<Decl>, d: Decl) {
    && (d.Column? ==> d.name != "" && !DeclaredBefore(init, |init|, d.name))
    && (!d.Column? ==> forall k :: 0 <= k < |d.keys| ==> DeclaredBefore(init, |init|, d.keys[k]))
    && (DeclaresPrimaryKey(d) ==> forall j :: 0 <= j < |init| ==> !DeclaresPrimaryKey(init[j]))
  }

  lemma ValidDeclsStep(decls: seq<Decl>)
    requires decls != []
    ensures ValidDecls(decls)
        <==> ValidDecls(decls[..|decls| - 1]) && StepOk(decls[..|decls| - 1], decls[|decls| - 1])
  {
    var init := decls[..|decls| - 1];
    var last := |decls| - 1;
    var d := decls[last];
    forall i, n | 0 <= i <= last
      ensures DeclaredBefore(decls, i, n) <==> DeclaredBefore(init, i, n)
    {
      if DeclaredBefore(decls, i, n) {
        var j :| 0 <= j < i && j < |decls| && decls[j].Column? && decls[j].name == n;
        assert init[j] == decls[j];
      }
      if DeclaredBefore(init, i, n) {
        var j :| 0 <= j < i && j < |init| && init[j].Column? && init[j].name == n;
        assert init[j] == decls[j];
      }
    }
    if ValidDecls(decls) {
      assert StepOk(init, d) by {
        if DeclaresPrimaryKey(d) {
          forall j | 0 <= j < |init| ensures !DeclaresPrimaryKey(init[j]) {
            assert decls[j] == init[j];
          }
        }
      }
    }
    if ValidDecls(init) && StepOk(init, d) {
      forall i, j | 0 <= i < j < |decls| && decls[i].Column? && decls[j].Column?
        ensures decls[i].name != decls[j].name
      {
        if j == last {
          assert init[i] == decls[i];
          assert !DeclaredBefore(init, |init|, d.name);
        } else {
          assert init[i] == decls[i] && init[j] == decls[j];
        }
      }
      forall i, j | 0 <= i < j < |decls| && DeclaresPrimaryKey(decls[i])
        ensures !DeclaresPrimaryKey(decls[j])
      {
        assert init[i] == decls[i];
        if j < last {
          assert init[j] == decls[j];
        }
      }
      forall i, k | 0 <= i < |decls| && !decls[i].Column? && 0 <= k < |decls[i].keys|
        ensures DeclaredBefore(decls, i, decls[i].keys[k])
      {
        if i < last {
          assert init[i] == decls[i];
        }
      }
    }
  }

  // ---------------------------------------------------------------------
  // The construction, characterised.

  /** `Table(name, decls...)` succeeds exactly when the declarations follow
      the rules, and then records the name, the declared columns in order,
      the declared primary key and the unique constraints in order. */
  lemma {:induction false} BuildCharacterized(name: string, decls: seq<Decl>)
    ensures Build(name, decls).Success? <==> ValidDecls(decls)
    ensures Build(name, decls).Success? ==>
              Build(name, decls).value
                == Table(name, DeclaredColumns(decls), DeclaredPrimaryKey(decls), DeclaredUniques(decls))
    decreases |decls|
  {
    if decls != [] {
      var init := decls[..|decls| - 1];
      var d := decls[|decls| - 1];
      BuildCharacterized(name, init);
      ValidDeclsStep(decls);
      if Build(name, init).Success? {
        var t := Build(name, init).value;
        DeclaredPrimaryKeyExists(init);
        match d
        case Column(n, ty) =>
          DeclaredColumnNames(init, n);
        case PrimaryKey(keys) =>
          forall k | 0 <= k < |keys| ensures keys[k] in Names(t.columns) <==> DeclaredBefore(init, |init|, keys[k]) {
            DeclaredColumnNames(init, keys[k]);
          }
        case Unique(keys) =>
          forall k | 0 <= k < |keys| ensures keys[k] in Names(t.columns) <==> DeclaredBefore(init, |init|, keys[k]) {
            DeclaredColumnNames(init, keys[k]);
          }
      }
    }
  }

  /** A constructed table keeps the name it was declared with, and prints
      as that name. */
  lemma BuildKeepsName(name: string, decls: seq<Decl>)
    requires Build(name, decls).Success?
    ensures Build(name, decls).value.name == name
    ensures TableString(Build(name, decls).value) == name
  {
    BuildCharacterized(name, decls);
  }

  // ---------------------------------------------------------------------
  // The invariant of every constructed table.

  /** Column names are non-empty and distinct, and every constraint names
      columns of the table. */
  ghost predicate TableValid(t: Table) {
    var names := Names(t.columns);
    && (forall i :: 0 <= i < |names| ==> names[i] != "")
    && (forall i, j :: 0 <= i < j < |names| ==> names[i] != names[j])
    && (t.pk.Some? ==> forall k :: k in t.pk.value ==> k in names)
    && (forall u, k :: u in t.uniques && k in u ==> k in names)
  }

  lemma DeclarePreservesValid(t: Table, d: Decl)
    requires TableValid(t) && Declare(t, d).Success?
    ensures TableValid(Declare(t, d).value)
    ensures Declare(t, d).value.name == t.name
  {
    var t' := Declare(t, d).value;
    if d.Column? {
      assert Names(t'.columns) == Names(t.columns) + [d.name];
    }
  }

  /** Every table `Table(name, ...)` returns satisfies the invariant. */
  lemma {:induction false} BuildValid(name: string, decls: seq<Decl>)
    requires Build(name, decls).Success?
    ensures TableValid(Build(name, decls).value)
    decreases |decls|
  {
    if decls != [] {
      var init := decls[..|decls| - 1];
      BuildValid(name, init);
      DeclarePreservesValid(Build(name, init).value, decls[|decls| - 1]);
    }
  }

  /** Construction fails on a repeated column name, whatever surrounds it. */
  lemma RejectsDuplicateColumn(name: string, decls: seq<Decl>, i: nat, j: nat)
    requires i < j < |decls| && decls[i].Column? && decls[j].Column?
    requires decls[i].name == decls[j].name
    ensures Build(name, decls).Failure?
  {
    BuildCharacterized(name, decls);
  }

  /** Construction fails on a column with an empty name. */
  lemma RejectsEmptyColumnName(name: string, decls: seq<Decl>, i: nat)
    requires i < |decls| && decls[i].Column? && decls[i].name == ""
    ensures Build(name, decls).Failure?
  {
    BuildCharacterized(name, decls);
  }

  /** Construction fails when a primary key or unique constraint names a
      column that is not declared before it. */
  lemma RejectsUnknownColumn(name: string, decls: seq<Decl>, i: nat, k: nat)
    requires i < |decls| && !decls[i].Column? && k < |decls[i].keys|
    requires forall j :: 0 <= j < i ==> !(decls[j].Column? && decls[j].name == decls[i].keys[k])
    ensures Build(name, decls).Failure?
  {
    BuildCharacterized(name, decls);
  }

  /** Construction fails when two declarations give a primary key. */
  lemma RejectsSecondPrimaryKey(name: string, decls: seq<Decl>, i: nat, j: nat)
    requires i < j < |decls| && DeclaresPrimaryKey(decls[i]) && DeclaresPrimaryKey(decls[j])
    ensures Build(name, decls).Failure?
  {
    BuildCharacterized(name, decls);
  }
}
