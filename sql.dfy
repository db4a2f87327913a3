/** The rendering layer of the default dialect: bound values, identifier
    quoting, PostgreSQL-style positional placeholders `$1, $2, ...`, and the
    renderer that turns a statement template into SQL text plus an ordered
    parameter list. */
module Sql {

  /** A value bound to a statement; it is never written into the SQL text. */
  datatype Value = Int(i: int) | Str(s: string)

  /** A compiled query: SQL text and the parameters its placeholders stand for. */
  datatype Compiled = Compiled(sql: string, params: seq<Value>)

  /** A statement template: literal SQL text, or a hole for one bound value. */
  datatype Token = Lit(text: string) | Arg(value: Value)

  // ---------------------------------------------------------------------
  // Decimal numerals, used for placeholder numbers.

  function DigitChar(d: nat): (c: char)
    requires d < 10
    ensures '0' <= c <= '9' && (c as int) - ('0' as int) == d
  {
    "0123456789"[d]
  }

  predicate IsNumeral(s: string) {
    |s| > 0 && forall k :: 0 <= k < |s| ==> '0' <= s[k] <= '9'
  }

  /** The decimal numeral of `n`, without leading zeros. */
  function NatToString(n: nat): (s: string)
    ensures IsNumeral(s)
    decreases n
  {
    if n < 10 then [DigitChar(n)] else NatToString(n / 10) + [DigitChar(n % 10)]
  }

  /** Reads a numeral back; the inverse of NatToString. */
  function NumeralValue(s: string): nat
    requires IsNumeral(s)
    decreases |s|
  {
    var d := (s[|s| - 1] as int) - ('0' as int);
    if |s| == 1 then d else NumeralValue(s[..|s| - 1]) * 10 + d
  }

  lemma {:induction false} NatToStringRoundTrip(n: nat)
    ensures NumeralValue(NatToString(n)) == n
    decreases n
  {
    if n >= 10 {
      var s := NatToString(n);
      assert s[..|s| - 1] == NatToString(n / 10);
      NatToStringRoundTrip(n / 10);
    }
  }

  /** The placeholder for the `i`-th parameter: `$i`. */
  function Placeholder(i: nat): string {
    "$" + NatToString(i)
  }

  /** Distinct parameter positions get distinct placeholders. */
  lemma PlaceholderInjective(i: nat, j: nat)
    requires Placeholder(i) == Placeholder(j)
    ensures i == j
  {
    assert NatToString(i) == Placeholder(i)[1..];
    assert NatToString(j) == Placeholder(j)[1..];
    NatToStringRoundTrip(i);
    NatToStringRoundTrip(j);
  }

  // ---------------------------------------------------------------------
  // Identifiers and lists.

  /** A delimited identifier: the name between double quotes. */
  function Quote(name: string): string {
    "\"" + name + "\""
  }

  /** A column qualified by its table: `"table"."column"`. */
  function Qualified(table: string, column: string): string {
    Quote(table) + "." + Quote(column)
  }

  /** `items` separated by `sep`. */
  function Join(items: seq<string>, sep: string): string
    decreases |items|
  {
    if |items| == 0 then ""
    else if |items| == 1 then items[0]
    else items[0] + sep + Join(items[1..], sep)
  }

  /** `"a", "b", "c"` */
  function QuotedList(names: seq<string>): string {
    Join(seq(|names|, i requires 0 <= i < |names| => Quote(names[i])), ", ")
  }

  /** `$first, $first+1, ...`, `count` of them. */
  function PlaceholderList(first: nat, count: nat): string {
    Join(seq(count, i requires 0 <= i < count => Placeholder(first + i)), ", ")
  }

  // ---------------------------------------------------------------------
  // Rendering a template.

  /** The values of the holes of a template, left to right. */
  function Args(toks: seq<Token>): seq<Value>
    decreases |toks|
  {
    if toks == [] then []
    else (if toks[0].Arg? then [toks[0].value] else []) + Args(toks[1..])
  }

  /** Renders a template whose first hole is numbered `next`: each literal is
      copied, each hole becomes the next placeholder and its value the next
      parameter. */
  function Render(toks: seq<Token>, next: nat): Compiled
    decreases |toks|
  {
    if toks == [] then Compiled("", [])
    else
      match toks[0]
      case Lit(s) =>
        var rest := Render(toks[1..], next);
        Compiled(s + rest.sql, rest.params)
      case Arg(v) =>
        var rest := Render(toks[1..], next + 1);
        Compiled(Placeholder(next) + rest.sql, [v] + rest.params)
  }

  lemma RenderLit(s: string, rest: seq<Token>, next: nat)
    ensures Render([Lit(s)] + rest, next) == Compiled(s + Render(rest, next).sql, Render(rest, next).params)
  {
    assert ([Lit(s)] + rest)[1..] == rest;
  }

  lemma ArgsLit(s: string, rest: seq<Token>)
    ensures Args([Lit(s)] + rest) == Args(rest)
  {
    assert ([Lit(s)] + rest)[1..] == rest;
  }

  lemma ArgsArg(v: Value, rest: seq<Token>)
    ensures Args([Arg(v)] + rest) == [v] + Args(rest)
  {
    assert ([Arg(v)] + rest)[1..] == rest;
  }

  lemma RenderOneLit(s: string, next: nat)
    ensures Render([Lit(s)], next) == Compiled(s, [])
  {
    assert [Lit(s)][1..] == [];
    assert s + "" == s;
  }

  lemma RenderArg(v: Value, rest: seq<Token>, next: nat)
    ensures Render([Arg(v)] + rest, next)
         == Compiled(Placeholder(next) + Render(rest, next + 1).sql, [v] + Render(rest, next + 1).params)
  {
    assert ([Arg(v)] + rest)[1..] == rest;
  }

  /** Every hole contributes exactly one parameter, in template order. */
  lemma {:induction false} RenderParams(toks: seq<Token>, next: nat)
    ensures Render(toks, next).params == Args(toks)
    decreases |toks|
  {
    if toks != [] {
      RenderParams(toks[1..], if toks[0].Arg? then next + 1 else next);
    }
  }

  /** The statement of `RenderAppend` for one split of a template. */
  predicate AppendRenders(a: seq<Token>, b: seq<Token>, next: nat) {
    Render(a + b, next)
      == Compiled(Render(a, next).sql + Render(b, next + |Args(a)|).sql,
                  Render(a, next).params + Render(b, next + |Args(a)|).params)
  }

  lemma AppendRendersLit(s: string, rest: seq<Token>, b: seq<Token>, next: nat)
    requires AppendRenders(rest, b, next)
    ensures AppendRenders([Lit(s)] + rest, b, next)
  {
    var R := Render(rest, next);
    var B := Render(b, next + |Args(rest)|);
    assert [Lit(s)] + rest + b == [Lit(s)] + (rest + b);
    RenderLit(s, rest + b, next);
    RenderLit(s, rest, next);
    ArgsLit(s, rest);
    assert s + (R.sql + B.sql) == s + R.sql + B.sql;
  }

  lemma AppendRendersArg(v: Value, rest: seq<Token>, b: seq<Token>, next: nat)
    requires AppendRenders(rest, b, next + 1)
    ensures AppendRenders([Arg(v)] + rest, b, next)
  {
    var p := Placeholder(next);
    var R := Render(rest, next + 1);
    var B := Render(b, next + 1 + |Args(rest)|);
    assert [Arg(v)] + rest + b == [Arg(v)] + (rest + b);
    RenderArg(v, rest + b, next);
    RenderArg(v, rest, next);
    ArgsArg(v, rest);
    assert p + (R.sql + B.sql) == p + R.sql + B.sql;
    assert [v] + (R.params + B.params) == [v] + R.params + B.params;
  }

  /** Rendering is compositional: the second half continues the numbering
      where the first half stopped. */
  lemma {:induction false} RenderAppend(a: seq<Token>, b: seq<Token>, next: nat)
    ensures Render(a + b, next)
         == Compiled(Render(a, next).sql + Render(b, next + |Args(a)|).sql,
                     Render(a, next).params + Render(b, next + |Args(a)|).params)
    decreases |a|
  {
    if a == [] {
      assert a + b == b;
    } else {
      assert a == [a[0]] + a[1..];
      match a[0]
      case Lit(s) =>
        RenderAppend(a[1..], b, next);
        AppendRendersLit(s, a[1..], b, next);
      case Arg(v) =>
        RenderAppend(a[1..], b, next + 1);
        AppendRendersArg(v, a[1..], b, next);
    }
  }

  /** A template followed by a literal. */
  lemma RenderLitAfter(a: seq<Token>, b: string, next: nat)
    ensures Render(a + [Lit(b)], next) == Compiled(Render(a, next).sql + b, Render(a, next).params)
  {
    var A := Render(a, next);
    RenderAppend(a, [Lit(b)], next);
    RenderOneLit(b, next + |Args(a)|);
    assert A.params + [] == A.params;
  }

  /** A template between two literals. */
  lemma RenderLitAround(a: string, mid: seq<Token>, b: string, next: nat)
    ensures Render([Lit(a)] + mid + [Lit(b)], next)
         == Compiled(a + Render(mid, next).sql + b, Render(mid, next).params)
  {
    RenderLit(a, mid, next);
    RenderLitAfter([Lit(a)] + mid, b, next);
  }

  /** A literal, a template, a literal, a template, a literal: the second
      template continues the numbering after the first. */
  lemma RenderInterleaved(a: string, x: seq<Token>, b: string, y: seq<Token>, c: string, next: nat)
    ensures var X := Render(x, next);
            var Y := Render(y, next + |X.params|);
            Render([Lit(a)] + x + [Lit(b)] + y + [Lit(c)], next)
              == Compiled(a + X.sql + b + Y.sql + c, X.params + Y.params)
  {
    var front := [Lit(a)] + x + [Lit(b)];
    RenderLitAround(a, x, b, next);
    RenderParams(front, next);
    RenderParams(x, next);
    RenderAppend(front, y, next);
    RenderLitAfter(front + y, c, next);
  }

  /** Placeholders and parameters stay in lock-step: the hole preceded by `j`
      other holes is written as `$(next+j)` and its value is parameter `j`. */
  lemma RenderLockStep(a: seq<Token>, v: Value, b: seq<Token>, next: nat)
    ensures var j := |Args(a)|;
            var r := Render(a + [Arg(v)] + b, next);
            && j < |r.params| && r.params[j] == v
            && r.sql == Render(a, next).sql + Placeholder(next + j) + Render(b, next + j + 1).sql
  {
    var j := |Args(a)|;
    RenderAppend(a, [Arg(v)] + b, next);
    assert a + [Arg(v)] + b == a + ([Arg(v)] + b);
    assert ([Arg(v)] + b)[1..] == b;
    RenderParams(a, next);
  }

  /** Two templates that differ only in the values of their holes. */
  predicate SameShape(a: seq<Token>, b: seq<Token>) {
    && |a| == |b|
    && forall i :: 0 <= i < |a| ==> (a[i].Lit? || b[i].Lit?) ==> a[i] == b[i]
  }

  /** Bound values never reach the SQL text: it depends only on the shape. */
  lemma {:induction false} RenderTextIgnoresValues(a: seq<Token>, b: seq<Token>, next: nat)
    requires SameShape(a, b)
    ensures Render(a, next).sql == Render(b, next).sql
    decreases |a|
  {
    if a != [] {
      assert SameShape(a[1..], b[1..]) by {
        forall i | 0 <= i < |a| - 1
          ensures (a[1..][i].Lit? || b[1..][i].Lit?) ==> a[1..][i] == b[1..][i]
        {
          assert a[1..][i] == a[i + 1] && b[1..][i] == b[i + 1];
        }
      }
      RenderTextIgnoresValues(a[1..], b[1..], if a[0].Arg? then next + 1 else next);
    }
  }

  // ---------------------------------------------------------------------
  // Lists of holes.

  /** `$, $, $`: one hole per value, separated by commas. */
  function ArgList(vs: seq<Value>): seq<Token>
    decreases |vs|
  {
    if |vs| == 0 then []
    else if |vs| == 1 then [Arg(vs[0])]
    else [Arg(vs[0]), Lit(", ")] + ArgList(vs[1..])
  }

  lemma PlaceholderListStep(first: nat, count: nat)
    requires count >= 2
    ensures PlaceholderList(first, count)
         == Placeholder(first) + ", " + PlaceholderList(first + 1, count - 1)
  {
    var items := seq(count, i requires 0 <= i < count => Placeholder(first + i));
    var rest := seq(count - 1, i requires 0 <= i < count - 1 => Placeholder(first + 1 + i));
    assert items[1..] == rest;
  }

  /** A list of holes renders as consecutive placeholders with the values as
      parameters, in the same order. */
  lemma {:induction false} ArgListRenders(vs: seq<Value>, next: nat)
    ensures Render(ArgList(vs), next) == Compiled(PlaceholderList(next, |vs|), vs)
    decreases |vs|
  {
    if |vs| == 1 {
      assert ArgList(vs)[1..] == [];
    } else if |vs| >= 2 {
      var toks := ArgList(vs);
      assert toks[1..] == [Lit(", ")] + ArgList(vs[1..]);
      assert toks[1..][1..] == ArgList(vs[1..]);
      ArgListRenders(vs[1..], next + 1);
      PlaceholderListStep(next, |vs|);
      assert vs == [vs[0]] + vs[1..];
    }
  }
}
