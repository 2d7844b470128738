/** The compiler from analytics filters to parameterised conditions, and what those conditions mean. */
module FilterBuilder {
  import opened Decimal
  import opened EventTable
  import opened LikePattern

  // ---------------------------------------------------------------- filters and catalogue

  datatype Operator =
    | Equals | NotEquals | In | NotIn | Contains | NotContains
    | Gt | Gte | Lt | Lte | IsNull | IsNotNull | Between | IsEmpty | IsNotEmpty

  /** A filter value: null, or a string or number with its text and, if it reads as one, its number. */
  datatype FilterValue = Null | Given(text: string, number: Option<real>)

  datatype Filter = Filter(field: string, operator: Operator, values: Option<seq<FilterValue>>)

  /** A dimension with its column, or a metric with its SQL, and the tables it exists in. */
  datatype Definition = Definition(sql: string, tables: set<string>)

  type Catalog = map<string, Definition>

  datatype FilterError = UnknownField(field: string) | NotAvailable(field: string, table: string)

  datatype Result<+T> = Ok(value: T) | Err(error: FilterError)

  /** A filter whose field has been looked up. */
  datatype Clause = Clause(sql: string, operator: Operator, values: Option<seq<FilterValue>>)

  // ---------------------------------------------------------------- compiled form

  /** What a query parameter is set to; Undefined is a key whose value is missing. */
  datatype Param = Undefined | Scalar(value: FilterValue) | List(values: seq<FilterValue>)

  datatype Comparison = Above | AtLeast | Below | AtMost

  datatype Condition =
    | TextEqual(sql: string, param: string)
    | TextNotEqual(sql: string, param: string)
    | InList(sql: string, param: string)
    | NotInList(sql: string, param: string)
    | LikeText(sql: string, param: string)
    | NotLikeText(sql: string, param: string)
    | Compare(sql: string, comparison: Comparison, param: string)
    | BetweenBounds(sql: string, low: string, high: string)
    | Missing(sql: string)
    | Present(sql: string)
    | EmptyOrMissing(sql: string)
    | NotEmptyAndPresent(sql: string)

  type Params = map<string, Param>

  datatype Compiled = Compiled(conditions: seq<Condition>, params: Params)

  const NO_FILTER := Compiled([], map[])

  // ---------------------------------------------------------------- compiling

  function First(values: Option<seq<FilterValue>>): Param {
    if values.Some? && |values.value| > 0 then Scalar(values.value[0]) else Undefined
  }

  function Second(values: Option<seq<FilterValue>>): Param {
    if values.Some? && |values.value| > 1 then Scalar(values.value[1]) else Undefined
  }

  function All(values: Option<seq<FilterValue>>): Param {
    if values.Some? then List(values.value) else Undefined
  }

  /** A value in a template literal. */
  function Interpolated(p: Param): string {
    match p
    case Scalar(Given(text, _)) => text
    case Scalar(Null) => "null"
    case _ => "undefined"
  }

  function Wildcards(p: Param): Param {
    Scalar(Given("%" + Interpolated(p) + "%", None))
  }

  /** The condition of one clause and the parameters it sets. */
  function CompileClause(c: Clause, name: string): (Condition, Params) {
    match c.operator
    case Equals => (TextEqual(c.sql, name), map[name := First(c.values)])
    case NotEquals => (TextNotEqual(c.sql, name), map[name := First(c.values)])
    case In => (InList(c.sql, name), map[name := All(c.values)])
    case NotIn => (NotInList(c.sql, name), map[name := All(c.values)])
    case Contains => (LikeText(c.sql, name), map[name := Wildcards(First(c.values))])
    case NotContains => (NotLikeText(c.sql, name), map[name := Wildcards(First(c.values))])
    case Gt => (Compare(c.sql, Above, name), map[name := First(c.values)])
    case Gte => (Compare(c.sql, AtLeast, name), map[name := First(c.values)])
    case Lt => (Compare(c.sql, Below, name), map[name := First(c.values)])
    case Lte => (Compare(c.sql, AtMost, name), map[name := First(c.values)])
    case IsNull => (Missing(c.sql), map[])
    case IsNotNull => (Present(c.sql), map[])
    case IsEmpty => (EmptyOrMissing(c.sql), map[])
    case IsNotEmpty => (NotEmptyAndPresent(c.sql), map[])
    case Between => (BetweenBounds(c.sql, name + "a", name + "b"), map[name + "a" := First(c.values), name + "b" := Second(c.values)])
  }

  function ParamName(prefix: string, index: nat): string {
    prefix + NatText(index)
  }

  function Compile(clauses: seq<Clause>, prefix: string): (r: Compiled)
    ensures |r.conditions| == |clauses|
  {
    if clauses == [] then NO_FILTER
    else
      var n := |clauses| - 1;
      var before := Compile(clauses[..n], prefix);
      var (condition, params) := CompileClause(clauses[n], ParamName(prefix, n));
      Compiled(before.conditions + [condition], before.params + params)
  }

  function Lookup(f: Filter, catalog: Catalog, table: string): Result<Clause> {
    if f.field !in catalog then Err(UnknownField(f.field))
    else if table !in catalog[f.field].tables then Err(NotAvailable(f.field, table))
    else Ok(Clause(catalog[f.field].sql, f.operator, f.values))
  }

  /** All filters looked up; the error is the first one's. */
  function LookupAll(filters: seq<Filter>, catalog: Catalog, table: string): (r: Result<seq<Clause>>)
    ensures r.Ok? ==> |r.value| == |filters|
  {
    if filters == [] then Ok([])
    else
      var n := |filters| - 1;
      match LookupAll(filters[..n], catalog, table)
      case Err(e) => Err(e)
      case Ok(clauses) =>
        match Lookup(filters[n], catalog, table)
        case Err(e) => Err(e)
        case Ok(c) => Ok(clauses + [c])
  }

  function CompileFilters(filters: seq<Filter>, catalog: Catalog, table: string, prefix: string): Result<Compiled> {
    match LookupAll(filters, catalog, table)
    case Err(e) => Err(e)
    case Ok(clauses) => Ok(Compile(clauses, prefix))
  }

  // ---------------------------------------------------------------- evaluating

  /** A value in a row: SQL NULL, or a value as its text and its number. */
  datatype Cell = NullCell | Cell(text: string, number: real)

  type Env = string -> Cell

  datatype Truth = True | False | Unknown

  function Known(b: bool): Truth { if b then True else False }

  function BoundText(params: Params, p: string): Option<string> {
    if p in params && params[p].Scalar? && params[p].value.Given? then Some(params[p].value.text) else None
  }

  function BoundNumber(params: Params, p: string): Option<real> {
    if p in params && params[p].Scalar? && params[p].value.Given? then params[p].value.number else None
  }

  predicate AllGiven(values: seq<FilterValue>) {
    forall i | 0 <= i < |values| :: values[i].Given?
  }

  function BoundTexts(params: Params, p: string): Option<set<string>> {
    if p in params && params[p].List? && AllGiven(params[p].values)
    then Some(Texts(params[p].values)) else None
  }

  function Texts(values: seq<FilterValue>): set<string>
    requires AllGiven(values)
  {
    set v | v in values :: v.text
  }

  function OnText(cell: Cell, text: Option<string>, f: (string, string) -> bool): Option<Truth> {
    if text.None? then None else Some(if cell.NullCell? then Unknown else Known(f(cell.text, text.value)))
  }

  /** The truth of a condition in a row, None if a parameter it needs is not bound to a value of its type. */
  ghost function Eval(c: Condition, params: Params, env: Env): Option<Truth> {
    match c
    case TextEqual(sql, p) => OnText(env(sql), BoundText(params, p), (a, b) => a == b)
    case TextNotEqual(sql, p) => OnText(env(sql), BoundText(params, p), (a, b) => a != b)
    case LikeText(sql, p) => OnText(env(sql), BoundText(params, p), (a, b) => Like(b, a))
    case NotLikeText(sql, p) => OnText(env(sql), BoundText(params, p), (a, b) => !Like(b, a))
    case InList(sql, p) =>
      var texts := BoundTexts(params, p);
      if texts.None? then None
      else Some(if env(sql).NullCell? then Unknown else Known(env(sql).text in texts.value))
    case NotInList(sql, p) =>
      var texts := BoundTexts(params, p);
      if texts.None? then None
      else Some(if env(sql).NullCell? then Unknown else Known(env(sql).text !in texts.value))
    case Compare(sql, comparison, p) =>
      var bound := BoundNumber(params, p);
      if bound.None? then None
      else Some(if env(sql).NullCell? then Unknown else Known(
        match comparison
        case Above => env(sql).number > bound.value
        case AtLeast => env(sql).number >= bound.value
        case Below => env(sql).number < bound.value
        case AtMost => env(sql).number <= bound.value))
    case BetweenBounds(sql, low, high) =>
      var lo, hi := BoundNumber(params, low), BoundNumber(params, high);
      if lo.None? || hi.None? then None
      else Some(if env(sql).NullCell? then Unknown else Known(lo.value <= env(sql).number <= hi.value))
    case Missing(sql) => Some(Known(env(sql).NullCell?))
    case Present(sql) => Some(Known(!env(sql).NullCell?))
    case EmptyOrMissing(sql) => Some(Or(if env(sql).NullCell? then Unknown else Known(env(sql).text == ""), Known(env(sql).NullCell?)))
    case NotEmptyAndPresent(sql) => Some(And(if env(sql).NullCell? then Unknown else Known(env(sql).text != ""), Known(!env(sql).NullCell?)))
  }

  function And(a: Truth, b: Truth): Truth {
    if a == False || b == False then False else if a == True && b == True then True else Unknown
  }

  function Or(a: Truth, b: Truth): Truth {
    if a == True || b == True then True else if a == False && b == False then False else Unknown
  }

  /** Conditions joined with AND; none at all is true. */
  ghost function EvalAll(conditions: seq<Condition>, params: Params, env: Env): Option<Truth> {
    if conditions == [] then Some(True)
    else
      var n := |conditions| - 1;
      var before, last := EvalAll(conditions[..n], params, env), Eval(conditions[n], params, env);
      if before.None? || last.None? then None else Some(And(before.value, last.value))
  }

  // ---------------------------------------------------------------- what a filter means

  /** The filter has the values its operator needs. */
  ghost predicate HasValues(c: Clause) {
    var given := if c.values.Some? then c.values.value else [];
    match c.operator
    case Equals => |given| > 0 && given[0].Given?
    case NotEquals => |given| > 0 && given[0].Given?
    case Contains => |given| > 0 && given[0].Given?
    case NotContains => |given| > 0 && given[0].Given?
    case In => c.values.Some? && AllGiven(given)
    case NotIn => c.values.Some? && AllGiven(given)
    case Gt => |given| > 0 && given[0].Given? && given[0].number.Some?
    case Gte => |given| > 0 && given[0].Given? && given[0].number.Some?
    case Lt => |given| > 0 && given[0].Given? && given[0].number.Some?
    case Lte => |given| > 0 && given[0].Given? && given[0].number.Some?
    case Between => |given| > 1 && given[0].Given? && given[0].number.Some? && given[1].Given? && given[1].number.Some?
    case _ => true
  }

  ghost predicate SearchIsPlain(c: Clause)
    requires HasValues(c)
  {
    c.operator == Contains || c.operator == NotContains ==> Plain(c.values.value[0].text)
  }

  /** What the filter promises about a value: missing values pass only the two operators that ask for them. */
  ghost predicate Holds(c: Clause, cell: Cell)
    requires HasValues(c)
  {
    match cell
    case NullCell => c.operator == IsNull || c.operator == IsEmpty
    case Cell(text, number) =>
      match c.operator
      case Equals => text == c.values.value[0].text
      case NotEquals => text != c.values.value[0].text
      case In => exists i | 0 <= i < |c.values.value| :: text == c.values.value[i].text
      case NotIn => forall i | 0 <= i < |c.values.value| :: text != c.values.value[i].text
      case Contains => LikePattern.Contains(text, c.values.value[0].text)
      case NotContains => !LikePattern.Contains(text, c.values.value[0].text)
      case Gt => number > c.values.value[0].number.value
      case Gte => number >= c.values.value[0].number.value
      case Lt => number < c.values.value[0].number.value
      case Lte => number <= c.values.value[0].number.value
      case Between => c.values.value[0].number.value <= number <= c.values.value[1].number.value
      case IsNull => false
      case IsNotNull => true
      case IsEmpty => text == ""
      case IsNotEmpty => text != ""
  }

  // ---------------------------------------------------------------- parameter names

  lemma DigitsThenSuffix(a: string, s: string, b: string, t: string)
    requires AllDigits(a) && AllDigits(b) && a != "" && b != "" && IsSuffix(s) && IsSuffix(t)
    ensures a + s == b + t ==> a == b && s == t
  {
    var x, y := a + s, b + t;
    assert IsDigit(x[|x| - 1]) <==> s == "";
    assert IsDigit(y[|y| - 1]) <==> t == "";
    if x == y {
      assert |a| == |b|;
      assert a == x[..|a|] && b == y[..|a|];
      assert s == x[|a|..] && t == y[|a|..];
    }
  }

  ghost predicate IsSuffix(s: string) { s == "" || s == "a" || s == "b" }

  /** The parameter names of different filters, with their suffixes, never coincide. */
  lemma ParamNamesDiffer(prefix: string, i: nat, s: string, j: nat, t: string)
    requires IsSuffix(s) && IsSuffix(t)
    requires ParamName(prefix, i) + s == ParamName(prefix, j) + t
    ensures i == j && s == t
  {
    var x, y := NatText(i) + s, NatText(j) + t;
    assert x == (ParamName(prefix, i) + s)[|prefix|..];
    assert y == (ParamName(prefix, j) + t)[|prefix|..];
    DigitsThenSuffix(NatText(i), s, NatText(j), t);
    NatValueOfText(i);
    NatValueOfText(j);
  }

  ghost predicate NamedBelow(key: string, prefix: string, n: nat) {
    exists i: nat, s | i < n && IsSuffix(s) :: key == ParamName(prefix, i) + s
  }

  lemma ClauseKeys(c: Clause, prefix: string, i: nat)
    ensures forall k | k in CompileClause(c, ParamName(prefix, i)).1 ::
              k == ParamName(prefix, i) || k == ParamName(prefix, i) + "a" || k == ParamName(prefix, i) + "b"
  {
  }

  lemma {:induction false} CompiledKeys(clauses: seq<Clause>, prefix: string)
    ensures forall k | k in Compile(clauses, prefix).params :: NamedBelow(k, prefix, |clauses|)
  {
    if clauses != [] {
      var n := |clauses| - 1;
      CompiledKeys(clauses[..n], prefix);
      ClauseKeys(clauses[n], prefix, n);
      forall k | k in Compile(clauses, prefix).params ensures NamedBelow(k, prefix, |clauses|) {
        if k in Compile(clauses[..n], prefix).params {
          var i: nat, s :| i < n && IsSuffix(s) && k == ParamName(prefix, i) + s;
        } else {
          var name := ParamName(prefix, n);
          assert name + "" == name;
          var s := if k == name then "" else if k == name + "a" then "a" else "b";
          assert IsSuffix(s) && k == ParamName(prefix, n) + s;
        }
      }
    }
  }

  /** Each filter finds its own parameters in the final map: later filters do not overwrite them. */
  lemma {:induction false} ParamsSurvive(clauses: seq<Clause>, prefix: string, i: nat)
    requires i < |clauses|
    ensures var (condition, params) := CompileClause(clauses[i], ParamName(prefix, i));
            && Compile(clauses, prefix).conditions[i] == condition
            && forall k | k in params :: k in Compile(clauses, prefix).params && Compile(clauses, prefix).params[k] == params[k]
  {
    var n := |clauses| - 1;
    if i < n {
      ParamsSurvive(clauses[..n], prefix, i);
      var params := CompileClause(clauses[i], ParamName(prefix, i)).1;
      var later := CompileClause(clauses[n], ParamName(prefix, n)).1;
      ClauseKeys(clauses[i], prefix, i);
      ClauseKeys(clauses[n], prefix, n);
      forall k | k in params ensures k !in later {
        if k in later {
          assert ParamName(prefix, i) + "" == ParamName(prefix, i) && ParamName(prefix, n) + "" == ParamName(prefix, n);
          var s := if k == ParamName(prefix, i) then "" else if k == ParamName(prefix, i) + "a" then "a" else "b";
          var t := if k == ParamName(prefix, n) then "" else if k == ParamName(prefix, n) + "a" then "a" else "b";
          ParamNamesDiffer(prefix, i, s, n, t);
        }
      }
    }
  }

  // ---------------------------------------------------------------- compiled filters mean the filters

  /** The parameters that a condition refers to. */
  function Refers(c: Condition): set<string> {
    match c
    case TextEqual(_, p) => {p}
    case TextNotEqual(_, p) => {p}
    case InList(_, p) => {p}
    case NotInList(_, p) => {p}
    case LikeText(_, p) => {p}
    case NotLikeText(_, p) => {p}
    case Compare(_, _, p) => {p}
    case BetweenBounds(_, low, high) => {low, high}
    case _ => {}
  }

  lemma SameParamsSameTruth(c: Condition, a: Params, b: Params, env: Env)
    requires forall p | p in Refers(c) :: (p in a <==> p in b) && (p in a ==> a[p] == b[p])
    ensures Eval(c, a, env) == Eval(c, b, env)
  {
  }

  lemma ClauseRefers(c: Clause, name: string)
    ensures Refers(CompileClause(c, name).0) == CompileClause(c, name).1.Keys
  {
  }

  lemma InterpolatedGiven(c: Clause)
    requires HasValues(c) && (c.operator == Contains || c.operator == NotContains)
    ensures Interpolated(First(c.values)) == c.values.value[0].text
  {
  }

  /** The condition has a truth value, and it is true exactly when the filter holds. */
  ghost predicate Agrees(truth: Option<Truth>, c: Clause, cell: Cell)
    requires HasValues(c)
  {
    truth.Some? && (truth.value == True <==> Holds(c, cell))
  }

  lemma SearchMeaning(c: Clause, name: string, env: Env)
    requires HasValues(c) && SearchIsPlain(c) && (c.operator == Contains || c.operator == NotContains)
    ensures Agrees(Eval(CompileClause(c, name).0, CompileClause(c, name).1, env), c, env(c.sql))
  {
    InterpolatedGiven(c);
    if env(c.sql).Cell? {
      PlainIsSubstring(c.values.value[0].text, env(c.sql).text);
    }
  }

  lemma ListMeaning(c: Clause, name: string, env: Env)
    requires HasValues(c) && (c.operator == In || c.operator == NotIn)
    ensures Agrees(Eval(CompileClause(c, name).0, CompileClause(c, name).1, env), c, env(c.sql))
  {
    var values := c.values.value;
    forall t ensures t in Texts(values) <==> exists i | 0 <= i < |values| :: t == values[i].text {
      if t in Texts(values) {
        var v :| v in values && v.text == t;
        var i :| 0 <= i < |values| && values[i] == v;
      }
      if i :| 0 <= i < |values| && t == values[i].text {
        assert values[i] in values;
      }
    }
  }

  predicate IsNumeric(operator: Operator) {
    operator == Gt || operator == Gte || operator == Lt || operator == Lte || operator == Between
  }

  lemma NumberMeaning(c: Clause, name: string, env: Env)
    requires HasValues(c) && IsNumeric(c.operator)
    ensures Agrees(Eval(CompileClause(c, name).0, CompileClause(c, name).1, env), c, env(c.sql))
  {
    assert name + "a" != name + "b" by { assert (name + "a")[|name|] != (name + "b")[|name|]; }
  }

  lemma TextMeaning(c: Clause, name: string, env: Env)
    requires HasValues(c) && (c.operator == Equals || c.operator == NotEquals)
    ensures Agrees(Eval(CompileClause(c, name).0, CompileClause(c, name).1, env), c, env(c.sql))
  {
  }

  lemma MissingMeaning(c: Clause, name: string, env: Env)
    requires HasValues(c) && (c.operator == IsNull || c.operator == IsNotNull || c.operator == IsEmpty || c.operator == IsNotEmpty)
    ensures Agrees(Eval(CompileClause(c, name).0, CompileClause(c, name).1, env), c, env(c.sql))
  {
  }

  /** One clause: with the values it needs, and a search text without wildcards, the condition is true of a
      value exactly when the filter holds of it. */
  lemma ClauseMeaning(c: Clause, name: string, env: Env)
    requires HasValues(c) && SearchIsPlain(c)
    ensures Agrees(Eval(CompileClause(c, name).0, CompileClause(c, name).1, env), c, env(c.sql))
  {
    if c.operator == Contains || c.operator == NotContains {
      SearchMeaning(c, name, env);
    } else if c.operator == In || c.operator == NotIn {
      ListMeaning(c, name, env);
    } else if IsNumeric(c.operator) {
      NumberMeaning(c, name, env);
    } else if c.operator == Equals || c.operator == NotEquals {
      TextMeaning(c, name, env);
    } else {
      MissingMeaning(c, name, env);
    }
  }

  /** A search is compiled to what it promises for all values exactly when its text has no wildcards. */
  lemma SearchMeaningIffPlain(c: Clause, name: string)
    requires HasValues(c) && (c.operator == Contains || c.operator == NotContains)
    ensures (forall env: Env :: Eval(CompileClause(c, name).0, CompileClause(c, name).1, env) == Some(True) <==> Holds(c, env(c.sql)))
            <==> SearchIsPlain(c)
  {
    var v := c.values.value[0].text;
    var (condition, params) := CompileClause(c, name);
    InterpolatedGiven(c);
    SubstringIffPlain(v);
    if SearchIsPlain(c) {
      forall env: Env ensures Eval(condition, params, env) == Some(True) <==> Holds(c, env(c.sql)) {
        ClauseMeaning(c, name, env);
      }
    } else {
      var text :| Like("%" + v + "%", text) != LikePattern.Contains(text, v);
      var env: Env := sql => Cell(text, 0.0);
      assert BoundText(params, name) == Some("%" + v + "%");
      assert !(Eval(condition, params, env) == Some(True) <==> Holds(c, env(c.sql)));
    }
  }

  /** The same for a clause among others, under any parameters that include the produced ones. */
  lemma ClauseMeaningAt(clauses: seq<Clause>, prefix: string, params: Params, env: Env, i: nat)
    requires i < |clauses| && HasValues(clauses[i]) && SearchIsPlain(clauses[i])
    requires forall k | k in Compile(clauses, prefix).params :: k in params && params[k] == Compile(clauses, prefix).params[k]
    ensures Agrees(Eval(Compile(clauses, prefix).conditions[i], params, env), clauses[i], env(clauses[i].sql))
  {
    var c, name := clauses[i], ParamName(prefix, i);
    ParamsSurvive(clauses, prefix, i);
    ClauseRefers(c, name);
    SameParamsSameTruth(Compile(clauses, prefix).conditions[i], CompileClause(c, name).1, params, env);
    ClauseMeaning(c, name, env);
  }

  lemma {:induction false} EvalAllAgrees(conditions: seq<Condition>, clauses: seq<Clause>, params: Params, env: Env)
    requires |conditions| == |clauses| && forall i | 0 <= i < |clauses| :: HasValues(clauses[i])
    requires forall i | 0 <= i < |clauses| :: Agrees(Eval(conditions[i], params, env), clauses[i], env(clauses[i].sql))
    ensures var r := EvalAll(conditions, params, env);
            r.Some? && (r.value == True <==> forall i | 0 <= i < |clauses| :: Holds(clauses[i], env(clauses[i].sql)))
  {
    if conditions != [] {
      EvalAllAgrees(conditions[..|conditions| - 1], clauses[..|conditions| - 1], params, env);
    }
  }

  /** Compiled filters mean the same as the filters: with the values they need and wildcard-free searches,
      every placeholder is bound and a row passes exactly when every filter holds of it. It does so under any
      larger parameter map that keeps the produced parameters. */
  lemma FilterMeaning(clauses: seq<Clause>, prefix: string, params: Params, env: Env)
    requires forall i | 0 <= i < |clauses| :: HasValues(clauses[i]) && SearchIsPlain(clauses[i])
    requires forall k | k in Compile(clauses, prefix).params :: k in params && params[k] == Compile(clauses, prefix).params[k]
    ensures var r := EvalAll(Compile(clauses, prefix).conditions, params, env);
            r.Some? && (r.value == True <==> forall i | 0 <= i < |clauses| :: Holds(clauses[i], env(clauses[i].sql)))
  {
    var conditions := Compile(clauses, prefix).conditions;
    forall i | 0 <= i < |clauses| ensures Agrees(Eval(conditions[i], params, env), clauses[i], env(clauses[i].sql)) {
      ClauseMeaningAt(clauses, prefix, params, env, i);
    }
    EvalAllAgrees(conditions, clauses, params, env);
  }

  /** A condition has all its parameters bound to values of their types exactly when the filter has the values
      its operator needs, except that a search always has one: a missing text is searched as `undefined`. */
  lemma BoundIffHasValues(c: Clause, name: string, env: Env)
    ensures Eval(CompileClause(c, name).0, CompileClause(c, name).1, env).Some? <==>
            HasValues(c) || c.operator == Contains || c.operator == NotContains
  {
    if c.operator == Between {
      assert name + "a" != name + "b" by { assert (name + "a")[|name|] != (name + "b")[|name|]; }
    }
  }

  lemma FirstLetter(clauses: seq<Clause>, prefix: string, k: string)
    requires prefix != "" && k in Compile(clauses, prefix).params
    ensures k != "" && k[0] == prefix[0]
  {
    CompiledKeys(clauses, prefix);
    var i: nat, s :| i < |clauses| && IsSuffix(s) && k == ParamName(prefix, i) + s;
  }

  /** The parameters of a totals query: the date range, the filters' and the metric filters'. */
  function QueryParams(dateStart: Param, dateEnd: Param, filters: Params, metricFilters: Params): Params {
    map["date_start" := dateStart, "date_end" := dateEnd] + filters + metricFilters
  }

  /** Merging them loses nothing: no two of the names f0, f1a, ..., mf0, ..., date_start, date_end coincide. */
  lemma QueryParamsDisjoint(dateStart: Param, dateEnd: Param, filters: seq<Clause>, metricFilters: seq<Clause>)
    ensures var f, mf := Compile(filters, "f").params, Compile(metricFilters, "mf").params;
            var all := QueryParams(dateStart, dateEnd, f, mf);
            && all["date_start"] == dateStart && all["date_end"] == dateEnd
            && (forall k | k in f :: k in all && all[k] == f[k])
            && (forall k | k in mf :: k in all && all[k] == mf[k])
  {
    var f, mf := Compile(filters, "f").params, Compile(metricFilters, "mf").params;
    forall k | k in f ensures k != "date_start" && k != "date_end" && k !in mf {
      FirstLetter(filters, "f", k);
      if k in mf { FirstLetter(metricFilters, "mf", k); }
    }
    forall k | k in mf ensures k != "date_start" && k != "date_end" {
      FirstLetter(metricFilters, "mf", k);
    }
  }

  /** Looking up fails exactly when some filter names an unknown field or one its table lacks. */
  lemma {:induction false} LookupFails(filters: seq<Filter>, catalog: Catalog, table: string)
    ensures LookupAll(filters, catalog, table).Err? <==> exists i | 0 <= i < |filters| :: Lookup(filters[i], catalog, table).Err?
    ensures LookupAll(filters, catalog, table).Ok? ==>
              forall i | 0 <= i < |filters| :: Lookup(filters[i], catalog, table) == Ok(LookupAll(filters, catalog, table).value[i])
    ensures forall i | 0 <= i < |filters| && Lookup(filters[i], catalog, table).Err?
              && (forall j | 0 <= j < i :: Lookup(filters[j], catalog, table).Ok?) ::
              LookupAll(filters, catalog, table) == Err(Lookup(filters[i], catalog, table).error)
  {
    if filters != [] {
      var n := |filters| - 1;
      LookupFails(filters[..n], catalog, table);
      assert forall i | 0 <= i < n :: filters[..n][i] == filters[i];
    }
  }

  function ClauseFor(f: Filter, catalog: Catalog): Clause {
    Clause(if f.field in catalog then catalog[f.field].sql else "", f.operator, f.values)
  }

  ghost predicate FilterHolds(f: Filter, catalog: Catalog, env: Env)
    requires HasValues(ClauseFor(f, catalog))
  {
    Holds(ClauseFor(f, catalog), env(ClauseFor(f, catalog).sql))
  }

  lemma LookedUp(filters: seq<Filter>, catalog: Catalog, table: string)
    requires LookupAll(filters, catalog, table).Ok?
    ensures forall i | 0 <= i < |filters| :: filters[i].field in catalog && table in catalog[filters[i].field].tables
    ensures forall i | 0 <= i < |filters| :: LookupAll(filters, catalog, table).value[i] == ClauseFor(filters[i], catalog)
  {
    LookupFails(filters, catalog, table);
    var clauses := LookupAll(filters, catalog, table).value;
    assert forall i | 0 <= i < |filters| :: Lookup(filters[i], catalog, table) == Ok(clauses[i]);
  }

  /** `buildFilters` as its callers use it: on filters it accepts, a row passes the SQL under the query's
      parameters exactly when all the filters hold of it. */
  lemma BuiltFiltersMeaning(filters: seq<Filter>, catalog: Catalog, table: string, prefix: string, params: Params, env: Env)
    requires CompileFilters(filters, catalog, table, prefix).Ok?
    requires forall i | 0 <= i < |filters| ::
               HasValues(ClauseFor(filters[i], catalog)) && SearchIsPlain(ClauseFor(filters[i], catalog))
    requires forall k | k in CompileFilters(filters, catalog, table, prefix).value.params ::
               k in params && params[k] == CompileFilters(filters, catalog, table, prefix).value.params[k]
    ensures forall i | 0 <= i < |filters| :: filters[i].field in catalog && table in catalog[filters[i].field].tables
    ensures var r := EvalAll(CompileFilters(filters, catalog, table, prefix).value.conditions, params, env);
            r.Some? && (r.value == True <==> forall i | 0 <= i < |filters| :: FilterHolds(filters[i], catalog, env))
  {
    LookedUp(filters, catalog, table);
    FilterMeaning(LookupAll(filters, catalog, table).value, prefix, params, env);
  }

  // ---------------------------------------------------------------- the loops

  lemma LookupMore(filters: seq<Filter>, k: nat, catalog: Catalog, table: string)
    requires k < |filters| && LookupAll(filters[..k], catalog, table).Ok?
    ensures LookupAll(filters[..k + 1], catalog, table)
            == match Lookup(filters[k], catalog, table)
               case Err(e) => Err(e)
               case Ok(c) => Ok(LookupAll(filters[..k], catalog, table).value + [c])
  {
    assert filters[..k + 1][..k] == filters[..k];
  }

  lemma CompileMore(clauses: seq<Clause>, c: Clause, prefix: string)
    ensures var before, (condition, params) := Compile(clauses, prefix), CompileClause(c, ParamName(prefix, |clauses|));
            Compile(clauses + [c], prefix) == Compiled(before.conditions + [condition], before.params + params)
  {
    assert (clauses + [c])[..|clauses|] == clauses;
  }

  /** `buildFilters`, and `buildMetricFilters` on the operators that metric filters can have. */
  method BuildFilters(filters: seq<Filter>, catalog: Catalog, table: string, prefix: string) returns (r: Result<Compiled>)
    ensures r == CompileFilters(filters, catalog, table, prefix)
  {
    if |filters| == 0 { return Ok(NO_FILTER); }
    var conditions: seq<Condition> := [];
    var params: Params := map[];
    var paramIndex := 0;
    assert filters[..|filters|] == filters;
    for k := 0 to |filters|
      invariant paramIndex == k
      invariant LookupAll(filters[..k], catalog, table).Ok?
      invariant Compiled(conditions, params) == Compile(LookupAll(filters[..k], catalog, table).value, prefix)
    {
      var filter := filters[k];
      LookupMore(filters, k, catalog, table);
      if filter.field !in catalog {
        FirstErrorWins(filters, k + 1, catalog, table);
        return Err(UnknownField(filter.field));
      }
      if table !in catalog[filter.field].tables {
        FirstErrorWins(filters, k + 1, catalog, table);
        return Err(NotAvailable(filter.field, table));
      }
      var paramName := prefix + NatText(paramIndex);
      paramIndex := paramIndex + 1;
      var clause := Clause(catalog[filter.field].sql, filter.operator, filter.values);
      CompileMore(LookupAll(filters[..k], catalog, table).value, clause, prefix);
      var (condition, set') := CompileClause(clause, paramName);
      conditions := conditions + [condition];
      params := params + set';
    }
    return Ok(Compiled(conditions, params));
  }

  lemma {:induction false} FirstErrorWins(filters: seq<Filter>, n: nat, catalog: Catalog, table: string)
    requires n <= |filters| && LookupAll(filters[..n], catalog, table).Err?
    ensures LookupAll(filters, catalog, table) == LookupAll(filters[..n], catalog, table)
    decreases |filters| - n
  {
    if n == |filters| {
      assert filters[..n] == filters;
    } else {
      assert filters[..n + 1][..n] == filters[..n];
      FirstErrorWins(filters, n + 1, catalog, table);
    }
  }
}
