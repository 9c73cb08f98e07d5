/** Compiling where-trees to the flat column filters of the database, and paging through the selected rows. */
module Filters {
  import opened Wrappers
  import NumberFormat

  datatype Value = Number(n: int) | Text(s: string)

  /** A row by column; a missing column is null. */
  type Row = map<string, Value>

  /** What a field is asked: a plain value, null, or operators, of which any number may be given. */
  datatype Condition = Is(value: Value) | IsNullValue | Ops(ops: Operators)

  datatype Operators = Operators(
    contains: Option<string>, equals: Option<Value>, among: Option<seq<Value>>, differs: Option<Value>,
    gte: Option<Value>, lte: Option<Value>, gt: Option<Value>, lt: Option<Value>)

  datatype FieldTest = FieldTest(column: string, condition: Condition)

  /** Entries of an object all hold; OR and NOT take objects of plain fields. */
  datatype Clause = Field(field: FieldTest) | And(all: seq<Where>) | Or(any: seq<seq<FieldTest>>) | Not(none: seq<FieldTest>)
  datatype Where = Where(entries: seq<Clause>)

  // ---- What the tree means ----

  predicate LexLess(a: string, b: string) {
    if b == [] then false
    else if a == [] then true
    else if a[0] != b[0] then a[0] < b[0]
    else LexLess(a[1..], b[1..])
  }

  predicate Less(a: Value, b: Value) {
    match (a, b)
    case (Number(m), Number(n)) => m < n
    case (Text(s), Text(t)) => LexLess(s, t)
    case _ => false
  }

  predicate AtMost(a: Value, b: Value) { a == b || Less(a, b) }

  /** The text contains x somewhere, letters compared without case. */
  ghost predicate Contains(v: Value, x: string) {
    v.Text? && exists i :: 0 <= i <= |v.s| && NumberFormat.Upper(x) <= NumberFormat.Upper(v.s[i..])
  }

  /** A search text read as what it says, or as the pattern it becomes. */
  datatype Reading = Literally | AsPattern

  ghost predicate Finds(v: Value, x: string, reading: Reading) {
    match reading
    case Literally => Contains(v, x)
    case AsPattern => v.Text? && Like(v.s, "%" + x + "%")
  }

  ghost predicate Means(v: Value, c: Condition, reading: Reading) {
    match c
    case Is(w) => v == w
    case IsNullValue => false
    case Ops(o) =>
      && (o.contains.Some? ==> Finds(v, o.contains.value, reading))
      && (o.equals.Some? ==> v == o.equals.value)
      && (o.among.Some? ==> v in o.among.value)
      && (o.differs.Some? ==> v != o.differs.value)
      && (o.gte.Some? ==> AtMost(o.gte.value, v))
      && (o.lte.Some? ==> AtMost(v, o.lte.value))
      && (o.gt.Some? ==> Less(o.gt.value, v))
      && (o.lt.Some? ==> Less(v, o.lt.value))
  }

  function Given<T>(o: Option<T>): int { if o.Some? then 1 else 0 }

  function Firsts(o: Operators): int { Given(o.contains) + Given(o.equals) + Given(o.among) + Given(o.differs) }
  function Bounds(o: Operators): int { Given(o.gte) + Given(o.lte) + Given(o.gt) + Given(o.lt) }

  /** A null meets the demand for one, and whatever asks nothing. */
  ghost predicate FieldHolds(row: Row, f: FieldTest, reading: Reading) {
    if f.condition.IsNullValue? then f.column !in row
    else if f.condition.Ops? && Firsts(f.condition.ops) + Bounds(f.condition.ops) == 0 then true
    else f.column in row && Means(row[f.column], f.condition, reading)
  }

  ghost predicate AllFields(row: Row, fields: seq<FieldTest>, reading: Reading) {
    forall i :: 0 <= i < |fields| ==> FieldHolds(row, fields[i], reading)
  }

  ghost predicate EntryHolds(row: Row, e: Clause, reading: Reading) {
    match e
    case Field(f) => FieldHolds(row, f, reading)
    case And(all) => forall i :: 0 <= i < |all| ==> Holds(row, all[i], reading)
    case Or(any) => exists i :: 0 <= i < |any| && AllFields(row, any[i], reading)
    case Not(none) => !AllFields(row, none, reading)
  }

  ghost predicate Holds(row: Row, w: Where, reading: Reading) {
    forall i :: 0 <= i < |w.entries| ==> EntryHolds(row, w.entries[i], reading)
  }

  // ---- Filters as the database runs them ----

  datatype Test =
    | ILike(pattern: string) | Eq(value: Value) | In(values: seq<Value>) | Neq(value: Value)
    | Gte(value: Value) | Lte(value: Value) | Gt(value: Value) | Lt(value: Value) | IsNull

  datatype Fragment = Fragment(column: string, test: Test)
  datatype Filter = Only(fragment: Fragment) | AnyOf(fragments: seq<Fragment>) | Except(fragment: Fragment)

  predicate SameLetter(c: char, d: char) { NumberFormat.UpperChar(c) == NumberFormat.UpperChar(d) }

  /** ILIKE: % stands for any text, _ for any one character, and a backslash makes the character after it stand for itself. */
  predicate Like(s: string, p: string)
    decreases |s| + |p|
  {
    if p == [] then s == []
    else if p[0] == '%' then Like(s, p[1..]) || (s != [] && Like(s[1..], p))
    else if p[0] == '\\' then |p| > 1 && s != [] && SameLetter(p[1], s[0]) && Like(s[1..], p[2..])
    else s != [] && (p[0] == '_' || SameLetter(p[0], s[0])) && Like(s[1..], p[1..])
  }

  predicate Accepts(v: Value, t: Test) {
    match t
    case ILike(p) => v.Text? && Like(v.s, p)
    case Eq(w) => v == w
    case In(ws) => v in ws
    case Neq(w) => v != w
    case Gte(w) => AtMost(w, v)
    case Lte(w) => AtMost(v, w)
    case Gt(w) => Less(w, v)
    case Lt(w) => Less(v, w)
    case IsNull => false
  }

  predicate Passes(row: Row, f: Fragment) {
    if f.test.IsNull? then f.column !in row else f.column in row && Accepts(row[f.column], f.test)
  }

  /** Apart from IS NULL, a null column passes neither a test nor its negation. */
  predicate Selects(row: Row, f: Filter) {
    match f
    case Only(fragment) => Passes(row, fragment)
    case AnyOf(fragments) => exists g :: g in fragments && Passes(row, g)
    case Except(fragment) =>
      fragment.column in row && (fragment.test.IsNull? || !Accepts(row[fragment.column], fragment.test))
  }

  predicate SelectsAll(row: Row, fs: seq<Filter>) { forall f :: f in fs ==> Selects(row, f) }

  // ---- The compiler ----

  /** One fragment for a field: the first operator that is given, or nothing. */
  function ToTest(c: Condition): Option<Test> {
    match c
    case Is(v) => Some(Eq(v))
    case IsNullValue => Some(IsNull)
    case Ops(o) =>
      if o.contains.Some? then Some(ILike("%" + o.contains.value + "%"))
      else if o.equals.Some? then Some(Eq(o.equals.value))
      else if o.among.Some? then Some(In(o.among.value))
      else if o.differs.Some? then Some(Neq(o.differs.value))
      else if o.gte.Some? then Some(Gte(o.gte.value))
      else if o.lte.Some? then Some(Lte(o.lte.value))
      else if o.gt.Some? then Some(Gt(o.gt.value))
      else if o.lt.Some? then Some(Lt(o.lt.value))
      else None
  }

  function Ranges(o: Operators): seq<Test> {
    (if o.gte.Some? then [Gte(o.gte.value)] else []) + (if o.lte.Some? then [Lte(o.lte.value)] else [])
    + (if o.gt.Some? then [Gt(o.gt.value)] else []) + (if o.lt.Some? then [Lt(o.lt.value)] else [])
  }

  /** At the top level all range operators are used, unless one of the others is given. */
  function FieldTests(c: Condition): seq<Test> {
    if c.Ops? && c.ops.contains.None? && c.ops.equals.None? && c.ops.among.None? && c.ops.differs.None?
      then Ranges(c.ops)
    else if ToTest(c).Some? then [ToTest(c).value] else []
  }

  function Onlys(column: string, tests: seq<Test>): (fs: seq<Filter>)
    ensures |fs| == |tests| && forall i :: 0 <= i < |tests| ==> fs[i] == Only(Fragment(column, tests[i]))
  {
    seq(|tests|, i requires 0 <= i < |tests| => Only(Fragment(column, tests[i])))
  }

  function Fragments(fields: seq<FieldTest>): seq<Fragment> {
    if fields == [] then []
    else
      var rest := Fragments(fields[..|fields| - 1]);
      var last := fields[|fields| - 1];
      if ToTest(last.condition).Some? then rest + [Fragment(last.column, ToTest(last.condition).value)] else rest
  }

  function OrFragments(any: seq<seq<FieldTest>>): seq<Fragment> {
    if any == [] then [] else OrFragments(any[..|any| - 1]) + Fragments(any[|any| - 1])
  }

  function Excepts(fragments: seq<Fragment>): (fs: seq<Filter>)
    ensures |fs| == |fragments| && forall i :: 0 <= i < |fragments| ==> fs[i] == Except(fragments[i])
  {
    seq(|fragments|, i requires 0 <= i < |fragments| => Except(fragments[i]))
  }

  function CompileEntry(e: Clause): seq<Filter> {
    match e
    case Field(f) => Onlys(f.column, FieldTests(f.condition))
    case And(all) => CompileWheres(all)
    case Or(any) => if OrFragments(any) == [] then [] else [AnyOf(OrFragments(any))]
    case Not(none) => Excepts(Fragments(none))
  }

  function CompileWheres(ws: seq<Where>): seq<Filter> {
    if ws == [] then [] else CompileWheres(ws[..|ws| - 1]) + Compile(ws[|ws| - 1])
  }

  function CompileEntries(es: seq<Clause>): seq<Filter> {
    if es == [] then [] else CompileEntries(es[..|es| - 1]) + CompileEntry(es[|es| - 1])
  }

  function Compile(w: Where): seq<Filter> { CompileEntries(w.entries) }

  /** The compiler as it runs: filters are added to the query entry by entry, recursing into AND. */
  method ApplyWhere(query: seq<Filter>, w: Where) returns (result: seq<Filter>)
    ensures result == query + Compile(w)
    decreases w
  {
    result := query;
    for i := 0 to |w.entries|
      invariant result == query + CompileEntries(w.entries[..i])
    {
      assert w.entries[..i + 1][..i] == w.entries[..i];
      result := ApplyEntry(result, w.entries[i]);
    }
    assert w.entries[..|w.entries|] == w.entries;
  }

  method ApplyEntry(query: seq<Filter>, e: Clause) returns (result: seq<Filter>)
    ensures result == query + CompileEntry(e)
    decreases e
  {
    result := query;
    match e {
      case And(all) =>
        for i := 0 to |all|
          invariant result == query + CompileWheres(all[..i])
        {
          assert all[..i + 1][..i] == all[..i];
          result := ApplyWhere(result, all[i]);
        }
        assert all[..|all|] == all;
      case Or(any) =>
        var fragments := OrFragments(any);
        if fragments != [] { result := result + [AnyOf(fragments)]; }
      case Not(none) => result := result + Excepts(Fragments(none));
      case Field(f) => result := result + Onlys(f.column, FieldTests(f.condition));
    }
  }

  // ---- LIKE with a plain text between two wildcards ----

  /** A text without pattern characters. */
  predicate PlainText(x: string) { forall i :: 0 <= i < |x| ==> x[i] != '%' && x[i] != '_' && x[i] != '\\' }

  lemma {:induction false} LikeAnything(s: string)
    ensures Like(s, "%")
    decreases |s|
  {
    assert "%"[1..] == "";
    if s != [] { LikeAnything(s[1..]); }
  }

  lemma {:induction false} LikePrefix(s: string, x: string)
    requires PlainText(x)
    ensures Like(s, x + "%") <==> NumberFormat.Upper(x) <= NumberFormat.Upper(s)
    decreases |x|
  {
    if x == [] {
      assert x + "%" == "%";
      LikeAnything(s);
    } else {
      assert (x + "%")[1..] == x[1..] + "%" && (x + "%")[0] == x[0];
      if s != [] {
        LikePrefix(s[1..], x[1..]);
        UpperTail(s);
        UpperTail(x);
      }
    }
  }

  lemma UpperTail(s: string)
    requires s != []
    ensures NumberFormat.Upper(s) == [NumberFormat.UpperChar(s[0])] + NumberFormat.Upper(s[1..])
  {
  }

  /** ILIKE %x% is exactly "contains x" when x has no pattern characters. */
  lemma {:induction false} LikeIsContains(s: string, x: string)
    requires PlainText(x)
    ensures Like(s, "%" + x + "%") <==> Contains(Text(s), x)
    decreases |s|
  {
    hide NumberFormat.Upper;
    var p := "%" + x + "%";
    assert p[1..] == x + "%";
    LikePrefix(s, x);
    assert s[0..] == s;
    if s == [] {
      assert forall i :: 0 <= i <= |s| ==> s[i..] == s;
    } else {
      LikeIsContains(s[1..], x);
      ContainsStep(s, x);
    }
  }

  lemma ContainsStep(s: string, x: string)
    requires s != []
    ensures Contains(Text(s), x) <==> NumberFormat.Upper(x) <= NumberFormat.Upper(s) || Contains(Text(s[1..]), x)
  {
    hide NumberFormat.Upper;
    assert s[0..] == s;
    if Contains(Text(s), x) {
      var i :| 0 <= i <= |s| && NumberFormat.Upper(x) <= NumberFormat.Upper(s[i..]);
      if i > 0 { assert s[1..][i - 1..] == s[i..]; }
    }
    if Contains(Text(s[1..]), x) {
      var i :| 0 <= i <= |s[1..]| && NumberFormat.Upper(x) <= NumberFormat.Upper(s[1..][i..]);
      assert s[i + 1..] == s[1..][i..];
    }
  }

  /** The shortest text that a search text matches as a pattern: no text for %, a letter for _, and an escaped character as it is. */
  function Matched(x: string): string {
    if x == [] then []
    else if x[0] == '%' then Matched(x[1..])
    else if x[0] == '\\' then if |x| == 1 then "%" else [x[1]] + Matched(x[2..])
    else [if x[0] == '_' then 'A' else x[0]] + Matched(x[1..])
  }

  lemma {:induction false} MatchedIsLike(x: string)
    ensures Like(Matched(x), x + "%")
    decreases |x|
  {
    var p := x + "%";
    if x == [] {
      assert p == "%";
      LikeAnything([]);
    } else if x[0] == '\\' {
      if |x| == 1 {
        assert p[1] == '%' && p[2..] == [];
      } else {
        assert p[1] == x[1] && p[2..] == x[2..] + "%";
        MatchedIsLike(x[2..]);
        assert Matched(x)[1..] == Matched(x[2..]);
      }
    } else {
      assert p[1..] == x[1..] + "%";
      MatchedIsLike(x[1..]);
      if x[0] != '%' { assert Matched(x)[1..] == Matched(x[1..]); }
    }
  }

  /** A text with pattern characters is longer than what it matches, or differs from it in a letter. */
  lemma {:induction false} MatchedDiffers(x: string)
    ensures |Matched(x)| <= |x|
    ensures !PlainText(x) && |Matched(x)| == |x| ==> NumberFormat.Upper(Matched(x)) != NumberFormat.Upper(x)
    decreases |x|
  {
    if x != [] {
      UpperTail(x);
      if x[0] == '\\' {
        if |x| == 1 { UpperTail("%"); } else { MatchedDiffers(x[2..]); }
      } else {
        MatchedDiffers(x[1..]);
        if x[0] != '%' {
          var tail := Matched(x[1..]);
          assert Matched(x)[1..] == tail;
          UpperTail(Matched(x));
        }
      }
    }
  }

  lemma MatchedLacks(x: string)
    requires !PlainText(x)
    ensures !Contains(Text(Matched(x)), x)
  {
    hide Matched, PlainText;
    MatchedDiffers(x);
    var s := Matched(x);
    forall i | 0 <= i <= |s| ensures !(NumberFormat.Upper(x) <= NumberFormat.Upper(s[i..])) {
      if i == 0 { assert s[0..] == s; }
    }
  }

  /**
   The exact condition on a search text: ILIKE %x% selects just the texts that
   contain x if and only if x has no %, no _ and no backslash.
   */
  lemma LikeIsContainsIff(x: string)
    ensures (forall s: string :: Like(s, "%" + x + "%") <==> Contains(Text(s), x)) <==> PlainText(x)
  {
    hide Matched, Like, Contains, PlainText;
    if PlainText(x) {
      forall s: string ensures Like(s, "%" + x + "%") <==> Contains(Text(s), x) { LikeIsContains(s, x); }
    } else {
      MatchedLacks(x);
      MatchedIsLike(x);
      AfterWildcard(Matched(x), x + "%");
      assert "%" + (x + "%") == "%" + x + "%";
    }
  }

  lemma AfterWildcard(s: string, p: string)
    requires Like(s, p)
    ensures Like(s, "%" + p)
  {
    assert ("%" + p)[1..] == p;
  }

  /** Searching for an underscore selects a text without one; searching for a text with a backslash misses that very text. */
  lemma SearchTextIsAPattern()
    ensures Like("AB1", "%" + "A_1" + "%") && !Contains(Text("AB1"), "A_1")
    ensures !Like("a\\b", "%" + "a\\b" + "%") && Contains(Text("a\\b"), "a\\b")
  {
    UnderscoreMatches();
    BackslashMisses();
  }

  lemma UnderscoreMatches()
    ensures Like("AB1", "%" + "A_1" + "%") && !Contains(Text("AB1"), "A_1")
  {
    var p := "%" + "A_1" + "%";
    assert p == "%A_1%";
    LikeAnything("");
    assert "1%"[1..] == "%" && "_1%"[1..] == "1%" && "A_1%"[1..] == "_1%" && "%A_1%"[1..] == "A_1%";
    assert "1"[1..] == "" && "B1"[1..] == "1" && "AB1"[1..] == "B1";
    assert Like("1", "1%") && Like("B1", "_1%") && Like("AB1", "A_1%");
    forall i | 0 <= i <= 3 ensures !(NumberFormat.Upper("A_1") <= NumberFormat.Upper("AB1"[i..])) {
      if i == 0 {
        assert "AB1"[0..] == "AB1";
        assert NumberFormat.Upper("A_1")[1] == '_' && NumberFormat.Upper("AB1")[1] == 'B';
      }
    }
  }

  lemma BackslashMisses()
    ensures !Like("a\\b", "%" + "a\\b" + "%") && Contains(Text("a\\b"), "a\\b")
  {
    var s, q := "a\\b", "a\\b%";
    assert s[0..] == s;
    assert "%" + "a\\b" + "%" == "%" + q && ("%" + q)[1..] == q;
    assert q[1..] == "\\b%" && q[1..][1] == 'b';
    assert s[1..] == "\\b" && s[2..] == "b" && s[3..] == "";
    assert !Like(s[1..], q[1..]);
    assert !Like(s, q) && !Like(s[1..], q) && !Like(s[2..], q) && !Like(s[3..], q);
    assert s[1..][1..] == s[2..] && s[2..][1..] == s[3..];
    assert !Like(s[3..], "%" + q);
    assert !Like(s[2..], "%" + q);
    assert !Like(s[1..], "%" + q);
  }

  // ---- The fragment of trees that is compiled faithfully ----

  /** A text that is meant literally has no pattern characters. */
  predicate Readable(c: Condition, reading: Reading) {
    reading.Literally? && c.Ops? && c.ops.contains.Some? ==> PlainText(c.ops.contains.value)
  }

  /** One operator and no more. */
  predicate Single(c: Condition, reading: Reading) { Readable(c, reading) && (c.Ops? ==> Firsts(c.ops) + Bounds(c.ops) == 1) }

  /** Range operators together, or one other operator on its own. */
  predicate TopLevel(c: Condition, reading: Reading) {
    Readable(c, reading) && (c.Ops? ==> Firsts(c.ops) == 0 || Firsts(c.ops) + Bounds(c.ops) == 1)
  }

  predicate Compiled(e: Clause, reading: Reading) {
    match e
    case Field(f) => TopLevel(f.condition, reading)
    case And(all) => forall i :: 0 <= i < |all| ==> CompiledWhere(all[i], reading)
    case Or(any) => any != [] && forall i :: 0 <= i < |any| ==> |any[i]| == 1 && Single(any[i][0].condition, reading)
    case Not(none) => |none| == 1 && Single(none[0].condition, reading)
  }

  predicate CompiledWhere(w: Where, reading: Reading) { forall i :: 0 <= i < |w.entries| ==> Compiled(w.entries[i], reading) }

  /** The row has a value in every column that a negation asks about, unless it asks for none. */
  predicate NonNull(row: Row, e: Clause) {
    match e
    case Field(f) => true
    case And(all) => forall i :: 0 <= i < |all| ==> NonNullWhere(row, all[i])
    case Or(any) => true
    case Not(none) => forall i :: 0 <= i < |none| ==> none[i].condition.IsNullValue? || none[i].column in row
  }

  predicate NonNullWhere(row: Row, w: Where) { forall i :: 0 <= i < |w.entries| ==> NonNull(row, w.entries[i]) }

  lemma SingleTest(v: Value, c: Condition, reading: Reading)
    requires Single(c, reading)
    ensures ToTest(c).Some? && (Accepts(v, ToTest(c).value) <==> Means(v, c, reading))
  {
    hide Contains, Like;
    if c.Ops? && c.ops.contains.Some? && v.Text? && reading.Literally? { LikeIsContains(v.s, c.ops.contains.value); }
    ContainsNeedsText(v, if c.Ops? && c.ops.contains.Some? then c.ops.contains.value else "");
  }

  lemma ContainsNeedsText(v: Value, x: string)
    ensures Contains(v, x) ==> v.Text?
  {
  }

  lemma TopLevelTests(row: Row, f: FieldTest, reading: Reading)
    requires TopLevel(f.condition, reading)
    ensures SelectsAll(row, Onlys(f.column, FieldTests(f.condition))) <==> FieldHolds(row, f, reading)
  {
    hide Contains, Like, Less, AtMost, Means, Accepts, FieldTests, ToTest, Ranges;
    var tests := FieldTests(f.condition);
    var fs := Onlys(f.column, tests);
    assert SelectsAll(row, fs) <==> forall t :: t in tests ==> Passes(row, Fragment(f.column, t)) by {
      assert forall i :: 0 <= i < |tests| ==> fs[i] in fs && tests[i] in tests;
    }
    TestsAsk(f.condition, reading);
    if f.column in row {
      if f.condition.Ops? && Firsts(f.condition.ops) == 0 {
        RangesMean(row[f.column], f.condition.ops, reading);
      } else {
        SingleTest(row[f.column], f.condition, reading);
      }
    } else if tests != [] {
      assert tests[0] in tests;
    }
  }

  /** Only the demand for a null tests for one, and only a condition that asks nothing has no test. */
  lemma TestsAsk(c: Condition, reading: Reading)
    requires TopLevel(c, reading)
    ensures var tests := FieldTests(c);
      && (c.IsNullValue? ==> tests == [IsNull]) && (!c.IsNullValue? ==> forall t :: t in tests ==> !t.IsNull?)
      && (tests == [] <==> c.Ops? && Firsts(c.ops) + Bounds(c.ops) == 0)
      && (c.Ops? && Firsts(c.ops) == 0 ==> tests == Ranges(c.ops))
      && (!(c.Ops? && Firsts(c.ops) == 0) ==> ToTest(c).Some? && tests == [ToTest(c).value])
  {
  }

  lemma SingleIsNull(c: Condition, reading: Reading)
    requires Single(c, reading)
    ensures ToTest(c).Some? && (ToTest(c).value.IsNull? <==> c.IsNullValue?)
  {
  }

  lemma RangesMean(v: Value, o: Operators, reading: Reading)
    requires Firsts(o) == 0
    ensures (forall t :: t in Ranges(o) ==> Accepts(v, t)) <==> Means(v, Ops(o), reading)
  {
    hide Less, AtMost, Like;
    var ts := Ranges(o);
    assert o.gte.Some? ==> Gte(o.gte.value) in ts;
    assert o.lte.Some? ==> Lte(o.lte.value) in ts;
    assert o.gt.Some? ==> Gt(o.gt.value) in ts;
    assert o.lt.Some? ==> Lt(o.lt.value) in ts;
  }

  lemma FragmentsOfOne(f: FieldTest, reading: Reading)
    requires Single(f.condition, reading)
    ensures ToTest(f.condition).Some? && Fragments([f]) == [Fragment(f.column, ToTest(f.condition).value)]
  {
    assert [f][..0] == [];
  }

  lemma SingleFragment(row: Row, f: FieldTest, reading: Reading)
    requires Single(f.condition, reading)
    ensures ToTest(f.condition).Some? && (Passes(row, Fragment(f.column, ToTest(f.condition).value)) <==> FieldHolds(row, f, reading))
  {
    hide Means, Accepts, ToTest;
    SingleIsNull(f.condition, reading);
    if f.column in row { SingleTest(row[f.column], f.condition, reading); }
  }

  lemma {:induction false} OrMeans(row: Row, any: seq<seq<FieldTest>>, reading: Reading)
    requires forall i :: 0 <= i < |any| ==> |any[i]| == 1 && Single(any[i][0].condition, reading)
    ensures |OrFragments(any)| == |any|
    ensures (exists g :: g in OrFragments(any) && Passes(row, g)) <==> exists i :: 0 <= i < |any| && AllFields(row, any[i], reading)
  {
    hide Means, Accepts, Single, ToTest, FieldHolds, Passes;
    if any != [] {
      var init, last := any[..|any| - 1], any[|any| - 1];
      OrMeans(row, init, reading);
      assert last == [last[0]];
      FragmentsOfOne(last[0], reading);
      SingleFragment(row, last[0], reading);
      assert any == init + [last];
      var g := Fragment(last[0].column, ToTest(last[0].condition).value);
      assert OrFragments(any) == OrFragments(init) + [g];
      assert Passes(row, g) <==> AllFields(row, last, reading);
      assert forall i :: 0 <= i < |init| ==> any[i] == init[i];
    }
  }

  /** A negated field test: right for every row that has a value there, and for the demand for a null. */
  lemma SingleNegated(row: Row, f: FieldTest, reading: Reading)
    requires Single(f.condition, reading)
    ensures ToTest(f.condition).Some?
    ensures (Selects(row, Except(Fragment(f.column, ToTest(f.condition).value))) <==> !FieldHolds(row, f, reading))
       <==> f.condition.IsNullValue? || f.column in row
  {
    hide Means, Accepts, ToTest;
    SingleIsNull(f.condition, reading);
    if f.column in row { SingleTest(row[f.column], f.condition, reading); }
  }

  lemma SelectsAppend(row: Row, fs: seq<Filter>, gs: seq<Filter>)
    ensures SelectsAll(row, fs + gs) <==> SelectsAll(row, fs) && SelectsAll(row, gs)
  {
    assert forall f :: f in fs + gs <==> f in fs || f in gs;
  }

  lemma {:induction false} WheresFaithful(row: Row, ws: seq<Where>, reading: Reading)
    requires forall i :: 0 <= i < |ws| ==> CompiledWhere(ws[i], reading) && NonNullWhere(row, ws[i])
    ensures SelectsAll(row, CompileWheres(ws)) <==> forall i :: 0 <= i < |ws| ==> Holds(row, ws[i], reading)
    decreases ws
  {
    hide SelectsAll, Compile, CompiledWhere, NonNullWhere, Holds;
    if ws == [] {
      SelectsNothing(row);
    } else {
      var init, last := ws[..|ws| - 1], ws[|ws| - 1];
      WheresFaithful(row, init, reading);
      WhereFaithful(row, last, reading);
      SelectsAppend(row, CompileWheres(init), Compile(last));
    }
  }

  lemma SelectsNothing(row: Row)
    ensures SelectsAll(row, [])
  {
  }

  lemma SelectsOne(row: Row, f: Filter)
    ensures SelectsAll(row, [f]) <==> Selects(row, f)
  {
    assert f in [f];
  }

  lemma {:induction false} EntriesFaithful(row: Row, es: seq<Clause>, reading: Reading)
    requires forall i :: 0 <= i < |es| ==> Compiled(es[i], reading) && NonNull(row, es[i])
    ensures SelectsAll(row, CompileEntries(es)) <==> forall i :: 0 <= i < |es| ==> EntryHolds(row, es[i], reading)
    decreases es
  {
    hide SelectsAll, CompileEntry, Compiled, NonNull, EntryHolds;
    if es == [] {
      SelectsNothing(row);
    } else {
      var init, last := es[..|es| - 1], es[|es| - 1];
      EntriesFaithful(row, init, reading);
      EntryFaithful(row, last, reading);
      SelectsAppend(row, CompileEntries(init), CompileEntry(last));
    }
  }

  lemma {:induction false} EntryFaithful(row: Row, e: Clause, reading: Reading)
    requires Compiled(e, reading) && NonNull(row, e)
    ensures SelectsAll(row, CompileEntry(e)) <==> EntryHolds(row, e, reading)
    decreases e
  {
    hide SelectsAll, Means, Accepts, Single, TopLevel, ToTest, FieldTests, Fragments, OrFragments, CompiledWhere, NonNullWhere, Holds;
    match e {
      case Field(f) => TopLevelTests(row, f, reading);
      case And(all) => WheresFaithful(row, all, reading);
      case Or(any) =>
        OrMeans(row, any, reading);
        SelectsOne(row, AnyOf(OrFragments(any)));
      case Not(none) =>
        assert none == [none[0]];
        FragmentsOfOne(none[0], reading);
        SingleNegated(row, none[0], reading);
        assert CompileEntry(e) == [Except(Fragment(none[0].column, ToTest(none[0].condition).value))];
        SelectsOne(row, CompileEntry(e)[0]);
    }
  }

  /**
   Meaning is preserved: over rows without nulls in the columns that negations ask about,
   the compiled filters select exactly the rows the tree describes, however deeply AND is
   nested: any search texts read as patterns, and plain ones as what they say.
   */
  lemma {:induction false} WhereFaithful(row: Row, w: Where, reading: Reading)
    requires CompiledWhere(w, reading) && NonNullWhere(row, w)
    ensures SelectsAll(row, Compile(w)) <==> Holds(row, w, reading)
    decreases w
  {
    EntriesFaithful(row, w.entries, reading);
  }

  // ---- Outside the fragment ----

  /** The condition on negations is exact: a negated field is compiled faithfully for a row if and only if the row has a value there, or a null is what is negated. */
  lemma NegationFaithfulIff(row: Row, f: FieldTest, reading: Reading)
    requires Single(f.condition, reading)
    ensures var tree := Where([Not([f])]);
      (SelectsAll(row, Compile(tree)) <==> Holds(row, tree, reading)) <==> f.condition.IsNullValue? || f.column in row
  {
    hide Means, Accepts, ToTest, Single, FieldHolds, Selects;
    var e := Not([f]);
    FragmentsOfOne(f, reading);
    SingleNegated(row, f, reading);
    var filter := Except(Fragment(f.column, ToTest(f.condition).value));
    assert CompileEntry(e) == [filter];
    assert [e][..0] == [] && CompileEntries([e]) == [] + CompileEntry(e);
    SelectsOne(row, filter);
    assert AllFields(row, [f], reading) <==> FieldHolds(row, f, reading) by { assert [f][0] == f; }
    assert Holds(row, Where([e]), reading) <==> EntryHolds(row, e, reading) by { assert [e][0] == e; }
  }

  /** Asking a column for null selects exactly the rows without a value in it, and negating that exactly the others. */
  lemma NullIsNoValue(row: Row, column: string)
    ensures SelectsAll(row, Compile(Where([Field(FieldTest(column, IsNullValue))]))) <==> column !in row
    ensures SelectsAll(row, Compile(Where([Not([FieldTest(column, IsNullValue)])]))) <==> column in row
  {
    var f := FieldTest(column, IsNullValue);
    var e, n := Field(f), Not([f]);
    assert [e][..0] == [] && CompileEntries([e]) == [] + CompileEntry(e);
    assert CompileEntry(e) == [Only(Fragment(column, IsNull))];
    SelectsOne(row, Only(Fragment(column, IsNull)));
    FragmentsOfOne(f, Literally);
    assert [n][..0] == [] && CompileEntries([n]) == [] + CompileEntry(n);
    assert CompileEntry(n) == [Except(Fragment(column, IsNull))];
    SelectsOne(row, Except(Fragment(column, IsNull)));
  }

  /** The condition that search texts be plain is exact: a search on one column is compiled faithfully for every row if and only if its text is. */
  lemma SearchFaithfulIff(column: string, x: string)
    ensures var tree := Where([Field(FieldTest(column, Ops(Operators(Some(x), None, None, None, None, None, None, None))))]);
      (forall row: Row :: column in row ==> (SelectsAll(row, Compile(tree)) <==> Holds(row, tree, Literally))) <==> PlainText(x)
  {
    hide Like, Contains, PlainText, SelectsAll, Holds;
    var c := Ops(Operators(Some(x), None, None, None, None, None, None, None));
    var tree := Where([Field(FieldTest(column, c))]);
    if PlainText(x) {
      forall row: Row | column in row ensures SelectsAll(row, Compile(tree)) <==> Holds(row, tree, Literally) {
        WhereFaithful(row, tree, Literally);
      }
    } else {
      LikeIsContainsIff(x);
      var s :| !(Like(s, "%" + x + "%") <==> Contains(Text(s), x));
      SearchOneRow(column, x, map[column := Text(s)]);
    }
  }

  lemma SearchOneRow(column: string, x: string, row: Row)
    requires column in row && row[column].Text?
    ensures var tree := Where([Field(FieldTest(column, Ops(Operators(Some(x), None, None, None, None, None, None, None))))]);
      && (SelectsAll(row, Compile(tree)) <==> Like(row[column].s, "%" + x + "%"))
      && (Holds(row, tree, Literally) <==> Contains(row[column], x))
  {
    hide Like, Contains;
    var f := FieldTest(column, Ops(Operators(Some(x), None, None, None, None, None, None, None)));
    var e := Field(f);
    assert [e][..0] == [];
    assert CompileEntries([e]) == [] + CompileEntry(e);
    assert CompileEntry(e) == [Only(Fragment(column, ILike("%" + x + "%")))];
    SelectsOne(row, Only(Fragment(column, ILike("%" + x + "%"))));
    assert Holds(row, Where([e]), Literally) <==> EntryHolds(row, e, Literally) by { assert [e][0] == e; }
  }

  /** A disjunct of two fields is flattened: a row that meets only one of them is selected. */
  lemma TwoFieldDisjunctIsFlattened(a: string, b: string, v: Value, w: Value, row: Row)
    requires a in row && b in row && row[a] == v && row[b] != w
    ensures var tree := Where([Or([[FieldTest(a, Is(v)), FieldTest(b, Is(w))]])]);
      SelectsAll(row, Compile(tree)) && !Holds(row, tree, Literally)
  {
    var f, g := FieldTest(a, Is(v)), FieldTest(b, Is(w));
    var disjuncts := [[f, g]];
    assert [f, g][..1] == [f] && [f][..0] == [] && disjuncts[..0] == [];
    assert Fragments([f]) == [Fragment(a, Eq(v))];
    assert Fragments([f, g]) == [Fragment(a, Eq(v)), Fragment(b, Eq(w))];
    assert OrFragments(disjuncts) == [] + Fragments([f, g]);
    assert Passes(row, Fragment(a, Eq(v)));
    var e := Or(disjuncts);
    assert [e][..0] == [];
    assert CompileEntries([e]) == [] + CompileEntry(e);
    assert !FieldHolds(row, disjuncts[0][1], Literally);
    assert !AllFields(row, disjuncts[0], Literally);
    assert !EntryHolds(row, [e][0], Literally);
  }

  /** The one operator that is used where several are given: contains, equals, in, not, then the bounds in their order. */
  function FirstOf(o: Operators): Operators {
    var none := Operators(None, None, None, None, None, None, None, None);
    if o.contains.Some? then none.(contains := o.contains)
    else if o.equals.Some? then none.(equals := o.equals)
    else if o.among.Some? then none.(among := o.among)
    else if o.differs.Some? then none.(differs := o.differs)
    else if o.gte.Some? then none.(gte := o.gte)
    else if o.lte.Some? then none.(lte := o.lte)
    else if o.gt.Some? then none.(gt := o.gt)
    else none.(lt := o.lt)
  }

  /** Inside OR and NOT a field is asked its first operator only; at the top level so is one with an operator that is no bound. */
  lemma FirstOperatorIsUsed(row: Row, column: string, o: Operators)
    requires Firsts(o) + Bounds(o) > 0
    ensures var (all, first) := (FieldTest(column, Ops(o)), FieldTest(column, Ops(FirstOf(o))));
      && (SelectsAll(row, Compile(Where([Or([[all]])]))) <==> Holds(row, Where([Or([[first]])]), AsPattern))
      && (column in row ==>
            (SelectsAll(row, Compile(Where([Not([all])]))) <==> Holds(row, Where([Not([first])]), AsPattern)))
      && (Firsts(o) > 0 ==>
            (SelectsAll(row, Compile(Where([Field(all)]))) <==> Holds(row, Where([Field(first)]), AsPattern)))
  {
    hide Holds, SelectsAll;
    var (all, first) := (FieldTest(column, Ops(o)), FieldTest(column, Ops(FirstOf(o))));
    assert ToTest(Ops(o)) == ToTest(Ops(FirstOf(o)));
    SameFragments(all, first);
    assert Single(Ops(FirstOf(o)), AsPattern);
    SameEntry(Or([[all]]), Or([[first]]));
    SameEntry(Not([all]), Not([first]));
    WhereFaithful(row, Where([Or([[first]])]), AsPattern);
    if column in row { WhereFaithful(row, Where([Not([first])]), AsPattern); }
    if Firsts(o) > 0 {
      SameEntry(Field(all), Field(first));
      WhereFaithful(row, Where([Field(first)]), AsPattern);
    }
  }

  lemma SameFragments(f: FieldTest, g: FieldTest)
    requires f.column == g.column && ToTest(f.condition) == ToTest(g.condition)
    ensures Fragments([f]) == Fragments([g]) && OrFragments([[f]]) == OrFragments([[g]])
  {
    assert [f][..0] == [] && [g][..0] == [] && [[f]][..0] == [] && [[g]][..0] == [];
  }

  lemma SameEntry(e: Clause, d: Clause)
    requires CompileEntry(e) == CompileEntry(d)
    ensures Compile(Where([e])) == Compile(Where([d]))
  {
    hide CompileEntry;
    assert [e][..0] == [] && [d][..0] == [];
  }

  function Range(low: Value, high: Value): Condition { Ops(Operators(None, None, None, None, Some(low), Some(high), None, None)) }

  lemma RangeFragment(column: string, low: Value, high: Value)
    ensures Compile(Where([Or([[FieldTest(column, Range(low, high))]])])) == [AnyOf([Fragment(column, Gte(low))])]
  {
    var range := FieldTest(column, Range(low, high));
    var disjuncts := [[range]];
    var e := Or(disjuncts);
    assert [range][..0] == [] && disjuncts[..0] == [] && [e][..0] == [];
    assert Fragments([range]) == [Fragment(column, Gte(low))];
    assert OrFragments(disjuncts) == [] + Fragments([range]);
    assert CompileEntries([e]) == [] + CompileEntry(e);
  }

  /** Inside OR one operator of a field is used, so a range loses its upper bound: any row above the lower one is selected. */
  lemma RangeInDisjunctIsHalf(column: string, low: Value, high: Value, row: Row)
    ensures var tree := Where([Or([[FieldTest(column, Range(low, high))]])]);
      && (SelectsAll(row, Compile(tree)) <==> column in row && AtMost(low, row[column]))
      && (Holds(row, tree, Literally) <==> column in row && AtMost(low, row[column]) && AtMost(row[column], high))
  {
    hide AtMost, Compile;
    RangeFragment(column, low, high);
    SelectsOne(row, AnyOf([Fragment(column, Gte(low))]));
    RangeSelected(column, low, row);
    RangeHolds(column, low, high, row);
  }

  lemma RangeSelected(column: string, low: Value, row: Row)
    ensures Selects(row, AnyOf([Fragment(column, Gte(low))])) <==> column in row && AtMost(low, row[column])
  {
    hide AtMost;
    assert Fragment(column, Gte(low)) in [Fragment(column, Gte(low))];
  }

  lemma RangeHolds(column: string, low: Value, high: Value, row: Row)
    ensures Holds(row, Where([Or([[FieldTest(column, Range(low, high))]])]), Literally)
       <==> column in row && AtMost(low, row[column]) && AtMost(row[column], high)
  {
    hide AtMost;
    var range := FieldTest(column, Range(low, high));
    var e := Or([[range]]);
    assert AllFields(row, [range], Literally) <==> FieldHolds(row, range, Literally) by { assert [range][0] == range; }
    assert EntryHolds(row, e, Literally) <==> AllFields(row, [range], Literally) by { assert [[range]][0] == [range]; }
    assert Holds(row, Where([e]), Literally) <==> EntryHolds(row, e, Literally) by { assert [e][0] == e; }
  }

  /** NOT of two fields excludes each of them: a row that meets only one is lost. */
  lemma TwoFieldNegationLosesRows(a: string, b: string, v: Value, w: Value, row: Row)
    requires a in row && b in row && row[a] == v && row[b] != w
    ensures var tree := Where([Not([FieldTest(a, Is(v)), FieldTest(b, Is(w))])]);
      !SelectsAll(row, Compile(tree)) && Holds(row, tree, Literally)
  {
    var f, g := FieldTest(a, Is(v)), FieldTest(b, Is(w));
    assert [f, g][..1] == [f] && [f][..0] == [];
    assert Fragments([f]) == [Fragment(a, Eq(v))];
    assert Fragments([f, g]) == [Fragment(a, Eq(v)), Fragment(b, Eq(w))];
    var e := Not([f, g]);
    assert [e][..0] == [];
    assert CompileEntries([e]) == [] + CompileEntry(e);
    assert CompileEntry(e)[0] == Except(Fragment(a, Eq(v)));
    assert CompileEntry(e)[0] in Compile(Where([e]));
    assert !FieldHolds(row, [f, g][1], Literally);
    assert EntryHolds(row, e, Literally);
  }

  // ---- Paging ----

  const PAGE_SIZE := 1000

  /** Where the wanted rows end. */
  function WantedEnd<T>(rows: seq<T>, skip: nat, take: Option<nat>): (end: nat)
    ensures Min(skip, |rows|) <= end <= |rows|
  {
    if take.Some? then Min(Min(skip, |rows|) + take.value, |rows|) else |rows|
  }

  function Wanted<T>(rows: seq<T>, skip: nat, take: Option<nat>): seq<T> {
    rows[Min(skip, |rows|)..WantedEnd(rows, skip, take)]
  }

  /** Rows `offset` .. `offset + limit` of the result, cut at the server's cap on a page. */
  function Page<T>(rows: seq<T>, offset: nat, limit: nat, cap: nat): seq<T> {
    var from := Min(offset, |rows|);
    rows[from..Min(from + Min(limit, cap), |rows|)]
  }

  /** A page asked for after `done` wanted rows holds the next wanted ones: all of them, or as many as limit and cap allow. */
  lemma PageOfWanted<T>(rows: seq<T>, skip: nat, take: Option<nat>, done: nat, limit: nat, cap: nat)
    requires done <= |Wanted(rows, skip, take)| && (take.Some? ==> done + limit <= take.value)
    ensures var (page, wanted) := (Page(rows, skip + done, limit, cap), Wanted(rows, skip, take));
      && done + |page| <= |wanted| && page == wanted[done..done + |page|]
      && |page| == Min(Min(limit, cap), |rows| - Min(skip + done, |rows|))
      && (|page| < Min(limit, cap) ==> done + |page| == |wanted|)
  {
    var (page, wanted, start) := (Page(rows, skip + done, limit, cap), Wanted(rows, skip, take), Min(skip, |rows|));
    if page != [] {
      assert page == rows[start + done..start + done + |page|];
      assert forall i :: 0 <= i < |page| ==> page[i] == wanted[done + i];
    }
  }

  /**
   Pages of a thousand until one comes back short. `cap` is the server's own limit
   on a page: from a thousand up it is never felt, and below that the first page is all there is.
   */
  method FindMany<T>(rows: seq<T>, skip: nat, take: Option<nat>, cap: nat) returns (data: seq<T>)
    ensures var wanted := Wanted(rows, skip, take);
      data == if cap >= PAGE_SIZE then wanted else wanted[..Min(cap, |wanted|)]
  {
    hide Page, Wanted;
    data := [];
    var offset := skip;
    ghost var wanted := Wanted(rows, skip, take);
    WantedFits(rows, skip, take);
    while true
      invariant |data| <= |wanted| && data == wanted[..|data|] && offset == skip + |data|
      invariant cap < PAGE_SIZE ==> |data| <= cap && (data != [] ==> |data| == |wanted|)
      decreases |wanted| - |data|
    {
      if take.Some? && take.value <= |data| { break; }
      var limit := if take.Some? then Min(PAGE_SIZE, take.value - |data|) else PAGE_SIZE;
      var page := Page(rows, offset, limit, cap);
      PageOfWanted(rows, skip, take, |data|, limit, cap);
      data := data + page;
      if |page| < limit { break; }
      offset := offset + |page|;
    }
  }

  lemma WantedFits<T>(rows: seq<T>, skip: nat, take: Option<nat>)
    ensures take.Some? ==> |Wanted(rows, skip, take)| <= take.value
  {
  }
}
