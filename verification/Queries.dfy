/**
  Bounded mapping-first queries: validation, the logical predicate of the plan, and the `$operator` mapping
  that is executed. Execution follows the in-memory reference executor.
 */
module Queries {
  import opened Prelude
  import opened Orders
  import opened Canonical

  const MAX_FIELDS := 32
  const MAX_VALUES := 100

  datatype Operator = Eq | Ne | Lt | Lte | Gt | Gte | In | NotIn | IsNull

  function NameOf(op: Operator): string {
    match op
    case Eq => "eq"
    case Ne => "ne"
    case Lt => "lt"
    case Lte => "lte"
    case Gt => "gt"
    case Gte => "gte"
    case In => "in"
    case NotIn => "notIn"
    case IsNull => "isNull"
  }

  function Named(name: string): Option<Operator> {
    if name == "eq" then Some(Eq)
    else if name == "ne" then Some(Ne)
    else if name == "lt" then Some(Lt)
    else if name == "lte" then Some(Lte)
    else if name == "gt" then Some(Gt)
    else if name == "gte" then Some(Gte)
    else if name == "in" then Some(In)
    else if name == "notIn" then Some(NotIn)
    else if name == "isNull" then Some(IsNull)
    else None
  }

  datatype Test = Test(op: Operator, candidate: Json)

  datatype Condition = Equals(value: Json) | Tests(tests: seq<Test>)

  datatype Clause = Clause(field: string, condition: Condition)

  type Where = seq<Clause>

  // ---- Validation ----

  function ValidItems(items: seq<Json>): (r: Result<seq<Json>>)
    ensures r.Ok? ==> |r.value| == |items|
  {
    if items == [] then Ok([])
    else
      var first :- NormalForm(items[0], 0);
      var rest :- ValidItems(items[1..]);
      Ok([first] + rest)
  }

  function ValidCandidate(op: Operator, candidate: Json): Result<Json> {
    match op
    case In =>
      if !candidate.Arr? || !(1 <= |candidate.items| <= MAX_VALUES) then Err(InvalidUsage)
      else
        var items :- ValidItems(candidate.items);
        Ok(Arr(items))
    case NotIn =>
      if !candidate.Arr? || !(1 <= |candidate.items| <= MAX_VALUES) then Err(InvalidUsage)
      else
        var items :- ValidItems(candidate.items);
        Ok(Arr(items))
    case IsNull => if candidate.Bool? then Ok(candidate) else Err(InvalidUsage)
    case _ => NormalForm(candidate, 0)
  }

  function ValidTests(operators: seq<Entry>): (r: Result<seq<Test>>)
    ensures r.Ok? ==> |r.value| == |operators|
  {
    if operators == [] then Ok([])
    else if Named(operators[0].key).None? then Err(InvalidUsage)
    else
      var op := Named(operators[0].key).value;
      var candidate :- ValidCandidate(op, operators[0].value);
      var rest :- ValidTests(operators[1..]);
      Ok([Test(op, candidate)] + rest)
  }

  predicate TestLess(a: Test, b: Test) {
    TextLess(NameOf(a.op), NameOf(b.op))
  }

  predicate ClauseLess(a: Clause, b: Clause) {
    TextLess(a.field, b.field)
  }

  predicate KnownOperators(operators: seq<Entry>) {
    operators != [] && forall i :: 0 <= i < |operators| ==> Named(operators[i].key).Some?
  }

  /** A mapping is a set of operator tests, anything else an equality. */
  function ValidCondition(raw: Json): Result<Condition> {
    if raw.Obj? then
      if !KnownOperators(raw.entries) then Err(InvalidUsage)
      else
        var tests :- ValidTests(raw.entries);
        Ok(Tests(Sort(TestLess, tests)))
    else
      var value :- NormalForm(raw, 0);
      Ok(Equals(value))
  }

  function ValidClauses(raw: seq<Entry>): (r: Result<Where>)
    ensures r.Ok? ==> |r.value| == |raw|
  {
    if raw == [] then Ok([])
    else
      var condition :- ValidCondition(raw[0].value);
      var rest :- ValidClauses(raw[1..]);
      Ok([Clause(raw[0].key, condition)] + rest)
  }

  /** `_validate_where`. */
  function ValidWhere(raw: seq<Entry>): Result<Where> {
    if |raw| > MAX_FIELDS then Err(InvalidUsage)
    else
      var clauses :- ValidClauses(raw);
      Ok(Sort(ClauseLess, clauses))
  }

  method ValidateTests(operators: seq<Entry>) returns (r: Result<seq<Test>>)
    ensures r == ValidTests(operators)
  {
    hide ValidCandidate, Named;
    var tests: seq<Test> := [];
    ghost var all := ValidTests(operators);
    assert operators[0..] == operators;
    PrependNothing(all);
    for i := 0 to |operators|
      invariant all == Prepend(tests, ValidTests(operators[i..]))
    {
      if Named(operators[i].key).None? {
        return Err(InvalidUsage);
      }
      var op := Named(operators[i].key).value;
      var candidate :- ValidCandidate(op, operators[i].value);
      assert operators[i..][1..] == operators[i + 1..];
      PrependStep(tests, Test(op, candidate), ValidTests(operators[i + 1..]));
      tests := tests + [Test(op, candidate)];
    }
    assert operators[|operators|..] == [];
    PrependEnd(tests);
    return Ok(tests);
  }

  method ValidateWhere(raw: seq<Entry>) returns (r: Result<Where>)
    ensures r == ValidWhere(raw)
  {
    hide ValidTests, NormalForm, Sort, Named;
    if |raw| > MAX_FIELDS {
      return Err(InvalidUsage);
    }
    var result: Where := [];
    ghost var all := ValidClauses(raw);
    assert raw[0..] == raw;
    PrependNothing(all);
    for i := 0 to |raw|
      invariant all == Prepend(result, ValidClauses(raw[i..]))
    {
      var condition: Condition;
      if raw[i].value.Obj? {
        if !KnownOperators(raw[i].value.entries) {
          return Err(InvalidUsage);
        }
        var tests :- ValidateTests(raw[i].value.entries);
        condition := Tests(Sort(TestLess, tests));
      } else {
        var value :- NormalForm(raw[i].value, 0);
        condition := Equals(value);
      }
      assert raw[i..][1..] == raw[i + 1..];
      PrependStep(result, Clause(raw[i].key, condition), ValidClauses(raw[i + 1..]));
      result := result + [Clause(raw[i].key, condition)];
    }
    assert raw[|raw|..] == [];
    PrependEnd(result);
    return Ok(Sort(ClauseLess, result));
  }

  // ---- Meaning ----

  type Record = map<string, Json>

  function Actual(record: Record, field: string): Json {
    if field in record then record[field] else Null
  }

  /** The order on values of one type; values of different types are not ordered. */
  predicate Less(a: Json, b: Json) {
    match a
    case Int(n) => b.Int? && n < b.n
    case Str(s) => b.Str? && TextLess(s, b.s)
    case _ => false
  }

  predicate LessOrEqual(a: Json, b: Json) {
    Less(a, b) || (a == b && (a.Int? || a.Str?))
  }

  /** A test has an operand of the shape its operator needs; membership is in 1 to 100 values. */
  predicate Shaped(t: Test) {
    match t.op
    case In => t.candidate.Arr? && 1 <= |t.candidate.items| <= MAX_VALUES
    case NotIn => t.candidate.Arr? && 1 <= |t.candidate.items| <= MAX_VALUES
    case IsNull => t.candidate.Bool?
    case _ => true
  }

  predicate WellShaped(where: Where) {
    forall i :: 0 <= i < |where| && where[i].condition.Tests? ==>
      forall j :: 0 <= j < |where[i].condition.tests| ==> Shaped(where[i].condition.tests[j])
  }

  // ---- The logical plan ----

  datatype Expression =
    | Compare(field: string, op: Operator, value: Json)
    | Membership(field: string, values: seq<Json>, negated: bool)
    | NullTest(field: string, isNull: bool)
    | And(operands: seq<Expression>)

  function Expressed(field: string, t: Test): Expression
    requires Shaped(t)
  {
    match t.op
    case In => Membership(field, t.candidate.items, false)
    case NotIn => Membership(field, t.candidate.items, true)
    case IsNull => NullTest(field, t.candidate.b)
    case _ => Compare(field, t.op, t.candidate)
  }

  function Conjuncts(clause: Clause): seq<Expression>
    requires WellShaped([clause])
  {
    match clause.condition
    case Equals(value) => [Compare(clause.field, Eq, value)]
    case Tests(tests) =>
      assert [clause][0] == clause;
      seq(|tests|, j requires 0 <= j < |tests| => Expressed(clause.field, tests[j]))
  }

  function AllConjuncts(where: Where): seq<Expression>
    requires WellShaped(where)
  {
    if where == [] then []
    else
      assert forall j :: 0 <= j < |where[1..]| ==> where[1..][j] == where[j + 1];
      Conjuncts(where[0]) + AllConjuncts(where[1..])
  }

  /** `_logical_predicate`. */
  function Logical(where: Where): Option<Expression>
    requires WellShaped(where)
  {
    var conjuncts := AllConjuncts(where);
    if |conjuncts| == 0 then None
    else if |conjuncts| == 1 then Some(conjuncts[0])
    else Some(And(conjuncts))
  }

  /** What the plan's operators mean. */
  predicate Holds(e: Expression, record: Record) {
    match e
    case And(operands) => forall i :: 0 <= i < |operands| ==> Holds(operands[i], record)
    case Membership(field, values, negated) => (Actual(record, field) in values) != negated
    case NullTest(field, isNull) => (Actual(record, field) == Null) == isNull
    case Compare(field, op, value) =>
      var actual := Actual(record, field);
      match op
      case Eq => actual == value
      case Ne => actual != value
      case Lt => Less(actual, value)
      case Lte => LessOrEqual(actual, value)
      case Gt => Less(value, actual)
      case Gte => LessOrEqual(value, actual)
      case _ => false
  }

  predicate Selects(e: Option<Expression>, record: Record) {
    e.None? || Holds(e.value, record)
  }

  lemma ConjunctsFrom(where: Where, i: nat)
    requires WellShaped(where) && i <= |where|
    ensures WellShaped(where[i..])
    ensures i < |where| ==>
              && WellShaped([where[i]]) && WellShaped(where[i + 1..])
              && AllConjuncts(where[i..]) == Conjuncts(where[i]) + AllConjuncts(where[i + 1..])
  {
    hide Conjuncts, Shaped;
    var rest := where[i..];
    assert forall j :: 0 <= j < |rest| ==> rest[j] == where[i + j];
    if i < |where| {
      assert rest[1..] == where[i + 1..];
      var last := where[i + 1..];
      assert forall j :: 0 <= j < |last| ==> last[j] == where[i + 1 + j];
    }
  }

  method LogicalPredicate(where: Where) returns (r: Option<Expression>)
    requires WellShaped(where)
    ensures r == Logical(where)
  {
    hide Conjuncts, AllConjuncts, WellShaped;
    var predicates: seq<Expression> := [];
    ghost var all := AllConjuncts(where);
    assert where[0..] == where;
    assert predicates + all == all;
    for i := 0 to |where|
      invariant WellShaped(where[i..])
      invariant predicates + AllConjuncts(where[i..]) == all
    {
      ConjunctsFrom(where, i);
      predicates := predicates + Conjuncts(where[i]);
    }
    NoConjuncts();
    assert where[|where|..] == [] && predicates + [] == predicates;
    if |predicates| == 0 {
      return None;
    }
    if |predicates| == 1 {
      return Some(predicates[0]);
    }
    return Some(And(predicates));
  }

  lemma NoConjuncts()
    ensures AllConjuncts([]) == []
  {
  }

  // ---- The executed mapping ----

  datatype Operand = Literal(value: Json) | Operators(tests: seq<(string, Json)>)

  /** A mapping from fields to literals or `$operator` mappings. */
  type Mapping = seq<(string, Operand)>

  function LoweredTests(tests: seq<Test>): (r: seq<(string, Json)>)
    ensures |r| == |tests|
  {
    seq(|tests|, j requires 0 <= j < |tests| => ("$" + NameOf(tests[j].op), tests[j].candidate))
  }

  function LoweredClause(clause: Clause): (string, Operand) {
    (clause.field,
     match clause.condition
     case Equals(value) => Literal(value)
     case Tests(tests) => Operators(LoweredTests(tests)))
  }

  /** `_expression_predicates`. */
  function Lowered(where: Where): (r: Mapping)
    ensures |r| == |where|
  {
    seq(|where|, i requires 0 <= i < |where| => LoweredClause(where[i]))
  }

  method ExpressionPredicates(where: Where) returns (r: Mapping)
    ensures r == Lowered(where)
  {
    hide LoweredClause;
    r := [];
    for i := 0 to |where|
      invariant r == Lowered(where[..i])
    {
      assert where[..i + 1][..i] == where[..i] && where[..i + 1][i] == where[i];
      r := r + [LoweredClause(where[i])];
    }
    assert where[..|where|] == where;
  }

  function WithoutDollar(name: string): string {
    if name != "" && name[0] == '$' then name[1..] else name
  }

  /** One operator, named as the executor dispatches on it. */
  predicate OperatorMatches(actual: Json, name: string, expected: Json) {
    if name == "eq" then actual == expected
    else if name == "ne" then actual != expected
    else if name == "lt" then Less(actual, expected)
    else if name == "lte" then LessOrEqual(actual, expected)
    else if name == "gt" then Less(expected, actual)
    else if name == "gte" then LessOrEqual(expected, actual)
    else if name == "in" then expected.Arr? && actual in expected.items
    else if name == "notIn" then expected.Arr? && actual !in expected.items
    else if name == "isNull" then expected.Bool? && (actual == Null) == expected.b
    else false
  }

  predicate OperandMatches(actual: Json, operand: Operand) {
    match operand
    case Literal(value) => actual == value
    case Operators(tests) => forall j :: 0 <= j < |tests| ==>
        OperatorMatches(actual, WithoutDollar(tests[j].0), tests[j].1)
  }

  predicate Executes(mapping: Mapping, record: Record) {
    forall i :: 0 <= i < |mapping| ==> OperandMatches(Actual(record, mapping[i].0), mapping[i].1)
  }

  lemma TestKeepsMeaning(field: string, t: Test, record: Record)
    requires Shaped(t)
    ensures Holds(Expressed(field, t), record)
            <==> OperatorMatches(Actual(record, field), WithoutDollar("$" + NameOf(t.op)), t.candidate)
  {
    hide Less, LessOrEqual, Actual;
    assert WithoutDollar("$" + NameOf(t.op)) == NameOf(t.op);
  }

  lemma ClauseKeepsMeaning(clause: Clause, record: Record)
    requires WellShaped([clause])
    ensures (forall k :: 0 <= k < |Conjuncts(clause)| ==> Holds(Conjuncts(clause)[k], record))
            <==> OperandMatches(Actual(record, clause.field), LoweredClause(clause).1)
  {
    hide Less, LessOrEqual, Actual, OperatorMatches, Expressed, NameOf, Shaped;
    if clause.condition.Tests? {
      var tests := clause.condition.tests;
      assert [clause][0] == clause;
      forall j | 0 <= j < |tests|
        ensures Holds(Conjuncts(clause)[j], record)
                <==> OperatorMatches(Actual(record, clause.field), WithoutDollar(LoweredTests(tests)[j].0),
                    LoweredTests(tests)[j].1)
      {
        TestKeepsMeaning(clause.field, tests[j], record);
      }
    } else {
      EqualityMeans(clause, record);
      assert Conjuncts(clause) == [Compare(clause.field, Eq, clause.condition.value)];
      assert Conjuncts(clause)[0] == Compare(clause.field, Eq, clause.condition.value);
    }
  }

  lemma EqualityMeans(clause: Clause, record: Record)
    requires clause.condition.Equals?
    ensures Holds(Compare(clause.field, Eq, clause.condition.value), record)
            <==> Actual(record, clause.field) == clause.condition.value
  {
  }

  lemma {:induction false} ClausesKeepMeaning(where: Where, record: Record)
    requires WellShaped(where)
    ensures (forall k :: 0 <= k < |AllConjuncts(where)| ==> Holds(AllConjuncts(where)[k], record))
            <==> Executes(Lowered(where), record)
  {
    hide Conjuncts, OperandMatches, LoweredClause, Holds, Shaped;
    if where != [] {
      var rest := where[1..];
      assert forall j :: 0 <= j < |rest| ==> rest[j] == where[j + 1];
      ClausesKeepMeaning(rest, record);
      ClauseKeepsMeaning(where[0], record);
      var first, others := Conjuncts(where[0]), AllConjuncts(rest);
      assert AllConjuncts(where) == first + others;
      assert (forall k :: 0 <= k < |first + others| ==> Holds((first + others)[k], record))
        <==> && (forall k :: 0 <= k < |first| ==> Holds(first[k], record))
             && (forall k :: 0 <= k < |others| ==> Holds(others[k], record)) by {
        assert forall k :: 0 <= k < |first| ==> (first + others)[k] == first[k];
        assert forall k :: 0 <= k < |others| ==> (first + others)[|first| + k] == others[k];
      }
      ExecutesFirst(where, record);
    }
  }

  lemma ExecutesFirst(where: Where, record: Record)
    requires where != []
    ensures Executes(Lowered(where), record)
            <==> && OperandMatches(Actual(record, where[0].field), LoweredClause(where[0]).1)
                 && Executes(Lowered(where[1..]), record)
  {
    hide OperandMatches;
    var all, rest := Lowered(where), Lowered(where[1..]);
    assert forall i :: 0 <= i < |rest| ==> rest[i] == all[i + 1];
    assert all[0] == LoweredClause(where[0]);
    if OperandMatches(Actual(record, where[0].field), LoweredClause(where[0]).1) && Executes(rest, record) {
      forall i | 0 <= i < |all| ensures OperandMatches(Actual(record, all[i].0), all[i].1) {
        assert i > 0 ==> all[i] == rest[i - 1];
      }
    }
  }

  /**
    The executed mapping and the logical plan select the same records: for every operator, several operators
    on one field, membership and its negation, and both polarities of the null test.
   */
  lemma LoweringKeepsMeaning(where: Where, record: Record)
    requires WellShaped(where)
    ensures Selects(Logical(where), record) <==> Executes(Lowered(where), record)
  {
    hide Executes, Lowered;
    ClausesKeepMeaning(where, record);
  }

  lemma CandidateIsShaped(op: Operator, candidate: Json)
    requires ValidCandidate(op, candidate).Ok?
    ensures Shaped(Test(op, ValidCandidate(op, candidate).value))
  {
    hide NormalForm, ValidItems;
  }

  lemma {:induction false} TestsAreShaped(operators: seq<Entry>)
    requires ValidTests(operators).Ok?
    ensures forall t :: t in ValidTests(operators).value ==> Shaped(t)
  {
    hide ValidCandidate, Shaped, Named;
    if operators != [] {
      CandidateIsShaped(Named(operators[0].key).value, operators[0].value);
      TestsAreShaped(operators[1..]);
    }
  }

  predicate ShapedCondition(c: Condition) {
    c.Tests? ==> forall j :: 0 <= j < |c.tests| ==> Shaped(c.tests[j])
  }

  lemma ConditionIsShaped(raw: Json)
    requires ValidCondition(raw).Ok?
    ensures ShapedCondition(ValidCondition(raw).value)
  {
    hide NormalForm, ValidTests, Shaped, KnownOperators, TestLess;
    if raw.Obj? {
      TestsAreShaped(raw.entries);
      var tests := ValidTests(raw.entries).value;
      var sorted := Sort(TestLess, tests);
      forall j | 0 <= j < |sorted| ensures Shaped(sorted[j]) { SameElements(sorted, tests, sorted[j]); }
    }
  }

  lemma {:induction false} ClausesAreShaped(raw: seq<Entry>)
    requires ValidClauses(raw).Ok?
    ensures forall c :: c in ValidClauses(raw).value ==> ShapedCondition(c.condition)
  {
    hide ValidCondition, ShapedCondition;
    if raw != [] {
      ConditionIsShaped(raw[0].value);
      ClausesAreShaped(raw[1..]);
    }
  }

  /** Whatever validation accepts can be planned and executed. */
  lemma ValidatedIsWellShaped(raw: seq<Entry>)
    requires ValidWhere(raw).Ok?
    ensures WellShaped(ValidWhere(raw).value)
  {
    hide ValidClauses, Shaped, ClauseLess;
    ClausesAreShaped(raw);
    var clauses := ValidClauses(raw).value;
    var sorted := Sort(ClauseLess, clauses);
    forall i | 0 <= i < |sorted|
      ensures ShapedCondition(sorted[i].condition)
    {
      SameElements(sorted, clauses, sorted[i]);
    }
  }

  // ---- What validation accepts, and what it makes of it ----

  /** An operand as its operator takes it: values of a membership list are normalized one by one. */
  predicate AcceptedTest(name: string, candidate: Json) {
    if name in {"in", "notIn"} then
      candidate.Arr? && 1 <= |candidate.items| <= 100
      && forall i :: 0 <= i < |candidate.items| ==> NormalForm(candidate.items[i], 0).Ok?
    else if name == "isNull" then candidate.Bool?
    else name in {"eq", "ne", "lt", "lte", "gt", "gte"} && NormalForm(candidate, 0).Ok?
  }

  predicate AcceptedCondition(raw: Json) {
    if raw.Obj? then
      raw.entries != []
      && forall j :: 0 <= j < |raw.entries| ==> AcceptedTest(raw.entries[j].key, raw.entries[j].value)
    else NormalForm(raw, 0).Ok?
  }

  /** A given predicate on a field's value, read off the raw mapping. */
  predicate RawMatches(actual: Json, raw: Json)
    requires AcceptedCondition(raw)
  {
    if raw.Obj? then
      forall j :: 0 <= j < |raw.entries| ==> RawTest(actual, raw.entries[j].key, raw.entries[j].value)
    else actual == NormalForm(raw, 0).value
  }

  /** The operators by their names. */
  predicate RawTest(actual: Json, name: string, candidate: Json)
    requires AcceptedTest(name, candidate)
  {
    if name == "in" then exists i :: 0 <= i < |candidate.items| && actual == NormalForm(candidate.items[i], 0).value
    else if name == "notIn" then
      forall i :: 0 <= i < |candidate.items| ==> actual != NormalForm(candidate.items[i], 0).value
    else if name == "isNull" then (actual == Null) == candidate.b
    else
      var value := NormalForm(candidate, 0).value;
      if name == "eq" then actual == value
      else if name == "ne" then actual != value
      else if name == "lt" then Less(actual, value)
      else if name == "lte" then LessOrEqual(actual, value)
      else if name == "gt" then Less(value, actual)
      else LessOrEqual(value, actual)
  }

  lemma {:induction false} ItemsValidate(items: seq<Json>)
    ensures ValidItems(items).Ok? <==> forall i :: 0 <= i < |items| ==> NormalForm(items[i], 0).Ok?
    ensures ValidItems(items).Ok? ==>
              forall i :: 0 <= i < |items| ==> ValidItems(items).value[i] == NormalForm(items[i], 0).value
  {
    hide NormalForm;
    if items != [] {
      ItemsValidate(items[1..]);
      assert forall i :: 0 < i < |items| ==> items[i] == items[1..][i - 1];
    }
  }

  lemma TestValidates(name: string, candidate: Json)
    ensures Named(name).Some? && ValidCandidate(Named(name).value, candidate).Ok? <==> AcceptedTest(name, candidate)
  {
    hide NormalForm;
    if candidate.Arr? {
      ItemsValidate(candidate.items);
    }
  }

  /** A validated test, lowered and executed, is the raw one. */
  lemma TestMeans(name: string, candidate: Json, actual: Json)
    requires AcceptedTest(name, candidate)
    ensures Named(name).Some? && ValidCandidate(Named(name).value, candidate).Ok?
    ensures var op := Named(name).value;
            OperatorMatches(actual, NameOf(op), ValidCandidate(op, candidate).value)
            <==> RawTest(actual, name, candidate)
  {
    hide NormalForm, Less, LessOrEqual;
    TestValidates(name, candidate);
    if name in {"in", "notIn"} {
      ItemsValidate(candidate.items);
      var items := ValidItems(candidate.items).value;
      assert actual in items <==> exists i :: 0 <= i < |items| && actual == items[i];
    }
  }

  lemma {:induction false} TestsValidate(operators: seq<Entry>)
    ensures ValidTests(operators).Ok?
            <==> forall j :: 0 <= j < |operators| ==> AcceptedTest(operators[j].key, operators[j].value)
    ensures ValidTests(operators).Ok? ==>
              forall j :: 0 <= j < |operators| ==>
                && Named(operators[j].key).Some?
                && ValidCandidate(Named(operators[j].key).value, operators[j].value).Ok?
                && ValidTests(operators).value[j]
                   == Test(Named(operators[j].key).value,
                           ValidCandidate(Named(operators[j].key).value, operators[j].value).value)
  {
    hide AcceptedTest, ValidCandidate, Named;
    if operators != [] {
      TestValidates(operators[0].key, operators[0].value);
      TestsValidate(operators[1..]);
      assert forall j :: 0 < j < |operators| ==> operators[j] == operators[1..][j - 1];
    }
  }

  lemma ConditionValidates(raw: Json)
    ensures ValidCondition(raw).Ok? <==> AcceptedCondition(raw)
  {
    hide AcceptedTest, ValidCandidate, Named, NormalForm, TestLess;
    if raw.Obj? {
      TestsValidate(raw.entries);
      if AcceptedCondition(raw) {
        assert KnownOperators(raw.entries);
      }
    }
  }

  /** A validated condition executes as the raw one reads. */
  lemma ConditionMeans(field: string, raw: Json, actual: Json)
    requires AcceptedCondition(raw)
    ensures ValidCondition(raw).Ok?
    ensures OperandMatches(actual, LoweredClause(Clause(field, ValidCondition(raw).value)).1)
            <==> RawMatches(actual, raw)
  {
    hide AcceptedTest, ValidCandidate, Named, NormalForm, TestLess, OperatorMatches, RawTest, NameOf, KnownOperators;
    ConditionValidates(raw);
    if raw.Obj? {
      TestsValidate(raw.entries);
      var tests := ValidTests(raw.entries).value;
      var sorted := Sort(TestLess, tests);
      LoweredMeans(actual, sorted);
      forall t ensures t in sorted <==> t in tests { SameElements(sorted, tests, t); }
      forall j | 0 <= j < |tests|
        ensures OperatorMatches(actual, NameOf(tests[j].op), tests[j].candidate)
                <==> RawTest(actual, raw.entries[j].key, raw.entries[j].value)
      {
        TestMeans(raw.entries[j].key, raw.entries[j].value, actual);
      }
      AllTests(actual, tests, sorted);
    }
  }

  lemma LoweredMeans(actual: Json, tests: seq<Test>)
    ensures OperandMatches(actual, Operators(LoweredTests(tests)))
            <==> forall t :: t in tests ==> OperatorMatches(actual, NameOf(t.op), t.candidate)
  {
    hide OperatorMatches, NameOf;
    forall j | 0 <= j < |tests|
      ensures WithoutDollar(LoweredTests(tests)[j].0) == NameOf(tests[j].op)
              && LoweredTests(tests)[j].1 == tests[j].candidate
    {
      assert ("$" + NameOf(tests[j].op))[1..] == NameOf(tests[j].op);
    }
  }

  lemma AllTests(actual: Json, tests: seq<Test>, sorted: seq<Test>)
    requires forall t :: t in sorted <==> t in tests
    ensures (forall t :: t in sorted ==> OperatorMatches(actual, NameOf(t.op), t.candidate))
            <==> forall j :: 0 <= j < |tests| ==> OperatorMatches(actual, NameOf(tests[j].op), tests[j].candidate)
  {
    hide OperatorMatches, NameOf;
  }

  lemma {:induction false} ClausesValidate(raw: seq<Entry>)
    ensures ValidClauses(raw).Ok? <==> forall i :: 0 <= i < |raw| ==> AcceptedCondition(raw[i].value)
    ensures ValidClauses(raw).Ok? ==>
              forall i :: 0 <= i < |raw| ==>
                && ValidCondition(raw[i].value).Ok?
                && ValidClauses(raw).value[i] == Clause(raw[i].key, ValidCondition(raw[i].value).value)
  {
    hide AcceptedCondition, ValidCondition;
    if raw != [] {
      ConditionValidates(raw[0].value);
      ClausesValidate(raw[1..]);
      assert forall i :: 0 < i < |raw| ==> raw[i] == raw[1..][i - 1];
    }
  }

  /** Predicates are accepted exactly on at most 32 fields, each with a value or with known, well-formed operators. */
  lemma ValidatesExactly(raw: seq<Entry>)
    ensures ValidWhere(raw).Ok? <==> |raw| <= 32 && forall i :: 0 <= i < |raw| ==> AcceptedCondition(raw[i].value)
  {
    hide AcceptedCondition, ValidCondition, ClauseLess;
    ClausesValidate(raw);
  }

  /** Executing accepted predicates selects exactly the records that meet each of them as it was given. */
  lemma ExecutesAsGiven(raw: seq<Entry>, record: Record)
    requires ValidWhere(raw).Ok?
    ensures forall i :: 0 <= i < |raw| ==> AcceptedCondition(raw[i].value)
    ensures Executes(Lowered(ValidWhere(raw).value), record)
            <==> forall i :: 0 <= i < |raw| ==> RawMatches(Actual(record, raw[i].key), raw[i].value)
  {
    hide AcceptedCondition, ValidCondition, ClauseLess, OperandMatches, RawMatches, Executes, Lowered, Actual;
    ValidatesExactly(raw);
    ClausesValidate(raw);
    var clauses, where := ValidClauses(raw).value, ValidWhere(raw).value;
    ExecutesAll(where, record);
    forall c ensures c in where <==> c in clauses { SameElements(where, clauses, c); }
    forall i | 0 <= i < |raw|
      ensures ClauseMatches(clauses[i], record) <==> RawMatches(Actual(record, raw[i].key), raw[i].value)
    {
      ConditionMeans(raw[i].key, raw[i].value, Actual(record, raw[i].key));
    }
    AllClauses(clauses, where, record);
  }

  lemma AllClauses(clauses: Where, where: Where, record: Record)
    requires forall c :: c in where <==> c in clauses
    ensures (forall c :: c in where ==> ClauseMatches(c, record))
            <==> forall i :: 0 <= i < |clauses| ==> ClauseMatches(clauses[i], record)
  {
    hide ClauseMatches;
  }

  // ---- Queries over one scope and window ----

  const SCOPE_FIELD := "scopeFingerprint"
  const WINDOW_FIELD := "windowStart"
  const MAX_PAGE_SIZE := 500

  datatype Query = Query(scopeFingerprint: string, start: int, end: int, where: Where, limit: nat,
      cursor: Option<string>)

  /** A cursor that a query accepts. */
  predicate Token(cursor: string) {
    BoundedText(cursor, 4096)
  }

  /** The constructor: a non-empty window, valid predicates that leave the derived fields alone, a bounded page. */
  function NewQuery(scopeFingerprint: string, start: int, end: int, raw: seq<Entry>, limit: nat,
      cursor: Option<string>): Result<Query> {
    if start >= end then Err(InvalidUsage)
    else
      var where :- ValidWhere(raw);
      if exists i :: 0 <= i < |where| && where[i].field in {SCOPE_FIELD, WINDOW_FIELD} then Err(InvalidUsage)
      else if !(1 <= limit <= MAX_PAGE_SIZE) then Err(InvalidUsage)
      else if cursor.Some? && !Token(cursor.value) then Err(InvalidUsage)
      else Ok(Query(scopeFingerprint, start, end, where, limit, cursor))
  }

  /** Which queries can be constructed, and that they keep what they are given. */
  lemma QueryConstructsExactly(scopeFingerprint: string, start: int, end: int, raw: seq<Entry>, limit: nat,
      cursor: Option<string>)
    ensures NewQuery(scopeFingerprint, start, end, raw, limit, cursor).Ok?
            <==> && start < end && 1 <= limit <= 500 && (cursor.Some? ==> BoundedText(cursor.value, 4096))
                 && |raw| <= 32 && (forall i :: 0 <= i < |raw| ==> AcceptedCondition(raw[i].value))
                 && (forall i :: 0 <= i < |raw| ==> raw[i].key !in {"scopeFingerprint", "windowStart"})
    ensures NewQuery(scopeFingerprint, start, end, raw, limit, cursor).Ok? ==>
              var q := NewQuery(scopeFingerprint, start, end, raw, limit, cursor).value;
              && q.scopeFingerprint == scopeFingerprint && q.start == start && q.end == end
              && q.limit == limit && q.cursor == cursor && forall f :: f in Fields(q.where) <==> f in Keys(raw)
  {
    hide AcceptedCondition, ClauseLess, BoundedText, ValidCondition;
    ValidatesExactly(raw);
    if ValidWhere(raw).Ok? {
      ClausesValidate(raw);
      var clauses, where := ValidClauses(raw).value, ValidWhere(raw).value;
      forall c ensures c in where <==> c in clauses { SameElements(where, clauses, c); }
      SameFields(clauses, where);
      assert Fields(clauses) == Keys(raw);
      FieldsReserved(where, raw);
    }
  }

  function Fields(where: Where): (r: seq<string>)
    ensures |r| == |where| && forall i :: 0 <= i < |r| ==> r[i] == where[i].field
  {
    seq(|where|, i requires 0 <= i < |where| => where[i].field)
  }

  lemma SameFields(a: Where, b: Where)
    requires forall c :: c in a <==> c in b
    ensures forall f :: f in Fields(a) <==> f in Fields(b)
  {
    forall f ensures f in Fields(a) <==> f in Fields(b) {
      if i :| 0 <= i < |a| && Fields(a)[i] == f {
        assert a[i] in b;
        var j :| 0 <= j < |b| && b[j] == a[i];
        assert Fields(b)[j] == f;
      }
      if i :| 0 <= i < |b| && Fields(b)[i] == f {
        assert b[i] in a;
        var j :| 0 <= j < |a| && a[j] == b[i];
        assert Fields(a)[j] == f;
      }
    }
  }

  lemma FieldsReserved(where: Where, raw: seq<Entry>)
    requires forall f :: f in Fields(where) <==> f in Keys(raw)
    ensures (exists i :: 0 <= i < |where| && where[i].field in {SCOPE_FIELD, WINDOW_FIELD})
            <==> !(forall i :: 0 <= i < |raw| ==> raw[i].key !in {"scopeFingerprint", "windowStart"})
  {
    var a, b := Fields(where), Keys(raw);
    if i :| 0 <= i < |where| && where[i].field in {SCOPE_FIELD, WINDOW_FIELD} {
      assert a[i] in b;
    }
    if i :| 0 <= i < |raw| && raw[i].key in {"scopeFingerprint", "windowStart"} {
      assert b[i] in a;
    }
  }

  function Derived(q: Query): Where {
    [Clause(SCOPE_FIELD, Equals(Str(q.scopeFingerprint))),
     Clause(WINDOW_FIELD, Tests([Test(Gte, Int(q.start)), Test(Lt, Int(q.end))]))]
  }

  /** `UsageQuery.predicates`. */
  function Predicates(q: Query): Where {
    Sort(ClauseLess, q.where + Derived(q))
  }

  predicate ClauseMatches(clause: Clause, record: Record) {
    OperandMatches(Actual(record, clause.field), LoweredClause(clause).1)
  }

  lemma ExecutesAll(where: Where, record: Record)
    ensures Executes(Lowered(where), record) <==> forall c :: c in where ==> ClauseMatches(c, record)
  {
    hide OperandMatches;
    var mapping := Lowered(where);
    forall i | 0 <= i < |where| ensures OperandMatches(Actual(record, mapping[i].0), mapping[i].1)
        <==> ClauseMatches(where[i], record) {
    }
    if Executes(mapping, record) {
      forall c | c in where ensures ClauseMatches(c, record) {
        var i :| 0 <= i < |where| && where[i] == c;
      }
    }
  }

  lemma DerivedMeaning(q: Query, record: Record)
    ensures ClauseMatches(Derived(q)[0], record) <==> Actual(record, SCOPE_FIELD) == Str(q.scopeFingerprint)
    ensures ClauseMatches(Derived(q)[1], record) <==> InWindow(q, Actual(record, WINDOW_FIELD))
  {
    var c := Derived(q)[1];
    var tests := LoweredTests(c.condition.tests);
    assert WithoutDollar(tests[0].0) == "gte" && WithoutDollar(tests[1].0) == "lt";
    assert tests[0].1 == Int(q.start) && tests[1].1 == Int(q.end);
    WindowTests(Actual(record, WINDOW_FIELD), tests, q);
  }

  predicate InWindow(q: Query, v: Json) {
    v.Int? && q.start <= v.n < q.end
  }

  lemma WindowTests(v: Json, tests: seq<(string, Json)>, q: Query)
    requires |tests| == 2 && tests[0].1 == Int(q.start) && tests[1].1 == Int(q.end)
    requires WithoutDollar(tests[0].0) == "gte" && WithoutDollar(tests[1].0) == "lt"
    ensures OperandMatches(v, Operators(tests)) <==> InWindow(q, v)
  {
    hide WithoutDollar;
    assert OperatorMatches(v, WithoutDollar(tests[0].0), tests[0].1) <==> v.Int? && q.start <= v.n;
    assert OperatorMatches(v, WithoutDollar(tests[1].0), tests[1].1) <==> v.Int? && v.n < q.end;
  }

  /** A query selects exactly the records of its scope, in its half-open window, that meet its predicates. */
  lemma QuerySelects(q: Query, record: Record)
    ensures Executes(Lowered(Predicates(q)), record)
            <==> && Executes(Lowered(q.where), record)
                 && Actual(record, SCOPE_FIELD) == Str(q.scopeFingerprint)
                 && InWindow(q, Actual(record, WINDOW_FIELD))
  {
    hide ClauseMatches, Executes, Lowered, Actual, InWindow, ClauseLess, Derived;
    var all := q.where + Derived(q);
    ExecutesAll(Predicates(q), record);
    ExecutesAll(q.where, record);
    DerivedMeaning(q, record);
    TwoDerived(q);
    forall c ensures c in Predicates(q) <==> c in q.where || c == Derived(q)[0] || c == Derived(q)[1] {
      SameElements(Predicates(q), all, c);
    }
  }

  lemma TwoDerived(q: Query)
    ensures |Derived(q)| == 2
    ensures forall c :: c in Derived(q) <==> c == Derived(q)[0] || c == Derived(q)[1]
  {
  }

  lemma DerivedIsShaped(q: Query)
    requires WellShaped(q.where)
    ensures WellShaped(Predicates(q))
  {
    hide ClauseLess, Shaped;
    var all := q.where + Derived(q);
    forall i | 0 <= i < |Predicates(q)| ensures ShapedCondition(Predicates(q)[i].condition) {
      SameElements(Predicates(q), all, Predicates(q)[i]);
      ShapedAmong(q, Predicates(q)[i]);
    }
  }

  lemma ShapedAmong(q: Query, c: Clause)
    requires WellShaped(q.where) && c in q.where + Derived(q)
    ensures ShapedCondition(c.condition)
  {
    if c in q.where {
      var i :| 0 <= i < |q.where| && q.where[i] == c;
    }
  }

  /**
    Every query that can be constructed can be planned, and its plan means: this scope, this half-open window,
    and the given predicates, none of which may speak of the derived fields.
   */
  lemma PlanSelects(scopeFingerprint: string, start: int, end: int, raw: seq<Entry>, limit: nat,
      cursor: Option<string>, record: Record)
    requires NewQuery(scopeFingerprint, start, end, raw, limit, cursor).Ok?
    ensures var q := NewQuery(scopeFingerprint, start, end, raw, limit, cursor).value;
            && WellShaped(Predicates(q)) && WellShaped(q.where)
            && (forall i :: 0 <= i < |q.where| ==> q.where[i].field !in {SCOPE_FIELD, WINDOW_FIELD})
            && (Selects(Logical(Predicates(q)), record)
                <==> && Selects(Logical(q.where), record)
                     && Actual(record, SCOPE_FIELD) == Str(scopeFingerprint)
                     && InWindow(q, Actual(record, WINDOW_FIELD)))
  {
    hide Executes, Lowered, Logical, Predicates, WellShaped, Selects, InWindow, Actual, ValidWhere;
    ValidatedIsWellShaped(raw);
    var q := NewQuery(scopeFingerprint, start, end, raw, limit, cursor).value;
    DerivedIsShaped(q);
    QuerySelects(q, record);
    LoweringKeepsMeaning(Predicates(q), record);
    LoweringKeepsMeaning(q.where, record);
  }
}
