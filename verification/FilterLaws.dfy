/**
 * Which boolean laws the three-outcome evaluator obeys, errors included, and exactly when the
 * ones it breaks still hold.
 */
module FilterLaws {
  import opened Wrappers
  import opened FilterSyntax
  import opened FilterText
  import opened FilterEval
  import opened Chars
  import opened FilterLexer
  import opened FilterPrinter
  import FilterFields

  // ---------------------------------------------------------------- rewriting whole trees

  /** The tree with every NOT pushed down to the conditions; negate says one NOT is pending. */
  function PushNot(n: FilterNode, negate: bool): FilterNode
    requires WellFormed(n)
  {
    if n.condition.Some? then (if negate then Not(n) else n)
    else
      match n.logical
      case LogicNot => PushNot(n.left, !negate)
      case LogicAnd =>
        if negate then Or(PushNot(n.left, true), PushNot(n.right, true))
        else And(PushNot(n.left, false), PushNot(n.right, false))
      case LogicOr =>
        if negate then And(PushNot(n.left, true), PushNot(n.right, true))
        else Or(PushNot(n.left, false), PushNot(n.right, false))
  }

  predicate NotsOnConditions(n: FilterNode) {
    && WellFormed(n)
    && (n.condition.None? ==>
          if n.logical.LogicNot? then n.left.condition.Some?
          else NotsOnConditions(n.left) && NotsOnConditions(n.right))
  }

  /** De Morgan and double negation over a whole tree, with the same value and the same error. */
  lemma {:induction false} PushNotPreserves(rt: Runtime, n: FilterNode, negate: bool, client: Client)
    requires WellFormed(n)
    ensures NotsOnConditions(PushNot(n, negate))
    ensures var r := Evaluate(rt, n, client);
            Evaluate(rt, PushNot(n, negate), client) == if negate then Negated(r) else r
  {
    if n.condition.None? {
      if n.logical.LogicNot? {
        PushNotPreserves(rt, n.left, !negate, client);
      } else {
        PushNotPreserves(rt, n.left, negate, client);
        PushNotPreserves(rt, n.right, negate, client);
      }
    }
  }

  /** l AND/OR r with every chain of that operator nested to the right. */
  function ChainRight(op: LogicalOp, l: FilterNode, r: FilterNode): FilterNode
    decreases l
  {
    if l.Node? && l.condition.None? && l.logical == op
    then ChainRight(op, l.left, ChainRight(op, l.right, r))
    else Node(None, op, l, r)
  }

  function NestRight(n: FilterNode): FilterNode
    requires WellFormed(n)
  {
    if n.condition.Some? then n
    else if n.logical.LogicNot? then Not(NestRight(n.left))
    else ChainRight(n.logical, NestRight(n.left), NestRight(n.right))
  }

  /** No AND has an AND on its left, and no OR an OR. */
  predicate NestedRight(n: FilterNode) {
    && WellFormed(n)
    && (n.condition.None? ==>
          && NestedRight(n.left)
          && (!n.logical.LogicNot? ==>
                && NestedRight(n.right)
                && !(n.left.condition.None? && n.left.logical == n.logical)))
  }

  lemma {:induction false} ChainRightPreserves(rt: Runtime, op: LogicalOp, l: FilterNode, r: FilterNode, client: Client)
    requires (op.LogicAnd? || op.LogicOr?) && NestedRight(l) && NestedRight(r)
    ensures NestedRight(ChainRight(op, l, r))
    ensures Evaluate(rt, ChainRight(op, l, r), client) == Evaluate(rt, Node(None, op, l, r), client)
    decreases l
  {
    if l.condition.None? && l.logical == op {
      ChainRightPreserves(rt, op, l.right, r, client);
      ChainRightPreserves(rt, op, l.left, ChainRight(op, l.right, r), client);
    }
  }

  /** Associativity over a whole tree, with the same value and the same error. */
  lemma {:induction false} NestRightPreserves(rt: Runtime, n: FilterNode, client: Client)
    requires WellFormed(n)
    ensures NestedRight(NestRight(n))
    ensures Evaluate(rt, NestRight(n), client) == Evaluate(rt, n, client)
  {
    if n.condition.None? {
      NestRightPreserves(rt, n.left, client);
      if !n.logical.LogicNot? {
        NestRightPreserves(rt, n.right, client);
        ChainRightPreserves(rt, n.logical, NestRight(n.left), NestRight(n.right), client);
      }
    }
  }

  // ---------------------------------------------------------------- laws that fail, and exactly when

  /** Distributing an operand on the left is exact; it is still evaluated at most once before deciding. */
  lemma {:induction false} LeftDistribution(rt: Runtime, a: FilterNode, b: FilterNode, c: FilterNode, client: Client)
    ensures Evaluate(rt, And(a, Or(b, c)), client) == Evaluate(rt, Or(And(a, b), And(a, c)), client)
    ensures Evaluate(rt, Or(a, And(b, c)), client) == Evaluate(rt, And(Or(a, b), Or(a, c)), client)
  {
    assert Evaluate(rt, And(a, Or(b, c)), client)
        == (match Evaluate(rt, a, client)
            case Err(e) => Err(e)
            case Ok(x) => if !x then Ok(false) else Evaluate(rt, Or(b, c), client));
  }

  /** On the right AND distributes over OR unless a decided first operand used to hide an error of the second. */
  lemma {:induction false} RightDistributionExactly(
      rt: Runtime, a: FilterNode, b: FilterNode, c: FilterNode, client: Client)
    ensures Evaluate(rt, And(Or(b, c), a), client) == Evaluate(rt, Or(And(b, a), And(c, a)), client)
       <==> var x, y, z := Evaluate(rt, a, client), Evaluate(rt, b, client), Evaluate(rt, c, client);
            !(y == Ok(true) && x == Ok(false) && z.Err?)
  {
    assert Evaluate(rt, Or(And(b, a), And(c, a)), client)
        == (match Evaluate(rt, And(b, a), client)
            case Err(e) => Err(e)
            case Ok(x) => if x then Ok(true) else Evaluate(rt, And(c, a), client));
  }

  /** And OR over AND, dually. */
  lemma {:induction false} RightDistributionOfOrExactly(
      rt: Runtime, a: FilterNode, b: FilterNode, c: FilterNode, client: Client)
    ensures Evaluate(rt, Or(And(b, c), a), client) == Evaluate(rt, And(Or(b, a), Or(c, a)), client)
       <==> var x, y, z := Evaluate(rt, a, client), Evaluate(rt, b, client), Evaluate(rt, c, client);
            !(y == Ok(false) && x == Ok(true) && z.Err?)
  {
    assert Evaluate(rt, And(Or(b, a), Or(c, a)), client)
        == (match Evaluate(rt, Or(b, a), client)
            case Err(e) => Err(e)
            case Ok(x) => if !x then Ok(false) else Evaluate(rt, Or(c, a), client));
  }

  /** AND commutes unless exactly one side fails and the other is false, or both fail differently. */
  lemma {:induction false} AndCommutesExactly(rt: Runtime, a: FilterNode, b: FilterNode, client: Client)
    ensures Evaluate(rt, And(a, b), client) == Evaluate(rt, And(b, a), client)
       <==> var x, y := Evaluate(rt, a, client), Evaluate(rt, b, client);
            (x.Ok? && y.Ok?) || x == Ok(true) || y == Ok(true) || x == y
  {
  }

  /** OR commutes unless exactly one side fails and the other is true, or both fail differently. */
  lemma {:induction false} OrCommutesExactly(rt: Runtime, a: FilterNode, b: FilterNode, client: Client)
    ensures Evaluate(rt, Or(a, b), client) == Evaluate(rt, Or(b, a), client)
       <==> var x, y := Evaluate(rt, a, client), Evaluate(rt, b, client);
            (x.Ok? && y.Ok?) || x == Ok(false) || y == Ok(false) || x == y
  {
  }

  function Complement(op: FilterOp): FilterOp {
    match op
    case OpEq => OpNeq
    case OpNeq => OpEq
    case OpLt => OpGte
    case OpGte => OpLt
    case OpGt => OpLte
    case OpLte => OpGt
    case OpIn => OpNotIn
    case OpNotIn => OpIn
    case OpContains => OpNotContains
    case OpNotContains => OpContains
    case OpOther(t) => OpOther(t)
  }

  predicate IsOrdering(op: FilterOp) {
    op.OpLt? || op.OpGt? || op.OpLte? || op.OpGte?
  }

  /** NOT (f op v) is f with the opposite operator exactly when f is known and no NaN is ordered. */
  lemma {:induction false} ComplementExactly(rt: Runtime, field: string, op: FilterOp, v: Value, client: Client)
    requires IsKnownOp(op)
    ensures Evaluate(rt, Not(Cond(field, op, v)), client) == Evaluate(rt, Cond(field, Complement(op), v), client)
       <==> && GetField(client, field).Some?
            && (IsOrdering(op) ==>
                  var x, y := ToFloat(rt, GetField(client, field).value), ToFloat(rt, v);
                  x.Some? && y.Some? ==> !x.value.NaN? && !y.value.NaN?)
  {
    assert Evaluate(rt, Not(Cond(field, op, v)), client)
        == Negated(EvalCondition(rt, FilterCondition(field, op, v), client));
  }

  lemma {:induction false} KnownConditions(rt: Runtime, field: string, b: bool, client: Client)
    requires GetField(client, field) == Some(Bool(b))
    ensures Evaluate(rt, Cond(field, OpEq, Bool(b)), client) == Ok(true)
    ensures Evaluate(rt, Cond(field, OpNeq, Bool(b)), client) == Ok(false)
    ensures Evaluate(rt, Cond(field, OpIn, Bool(true)), client) == Err(TypeMismatch)
  {
  }

  /** A true, a false and a failing operand break commutativity and right distribution. */
  lemma {:induction false} OperandsBreakLaws(
      rt: Runtime, yes: FilterNode, no: FilterNode, fails: FilterNode, client: Client)
    requires Evaluate(rt, yes, client) == Ok(true) && Evaluate(rt, no, client) == Ok(false)
    requires Evaluate(rt, fails, client) == Err(TypeMismatch)
    ensures Evaluate(rt, And(no, fails), client) == Ok(false)
    ensures Evaluate(rt, And(fails, no), client) == Err(TypeMismatch)
    ensures Evaluate(rt, And(Or(yes, fails), no), client) == Ok(false)
    ensures Evaluate(rt, Or(And(yes, no), And(fails, no)), client) == Err(TypeMismatch)
  {
    assert Evaluate(rt, Or(yes, fails), client) == Ok(true);
    assert Evaluate(rt, And(yes, no), client) == Ok(false);
  }

  /** The filter `active IN true` and its like: fields the parser accepts, with a boolean to compare. */
  lemma {:induction false} BooleanConditionsPrintable(rt: Runtime, field: string, op: FilterOp, b: bool)
    requires FieldPrintable(field) && IsKnownOp(op)
    ensures Printable(rt, Cond(field, op, Bool(b)))
  {
  }

  lemma {:induction false} ShortFieldsPrintable()
    ensures FieldPrintable("active") && FieldPrintable("x")
  {
    assert |ToUpper("active")| == 6 && ToUpper("active")[1] == 'C' && |ToUpper("x")| == 1;
    assert ToUpper("active") !in KEYWORDS && ToUpper("x") !in KEYWORDS;
    assert WordShape("active") && WordShape("x");
  }

  lemma {:induction false} CombinationsPrintable(rt: Runtime, a: FilterNode, b: FilterNode)
    requires Printable(rt, a) && Printable(rt, b)
    ensures Printable(rt, And(a, b)) && Printable(rt, Or(a, b)) && Printable(rt, Not(a))
  {
  }

  /** `active == <the client's own value>`, its opposite, and a comparison that always fails. */
  function Yes(client: Client): FilterNode {
    Cond("active", OpEq, Bool(client.active))
  }

  function No(client: Client): FilterNode {
    Cond("active", OpNeq, Bool(client.active))
  }

  const FAILS := Cond("active", OpIn, Bool(true))

  lemma {:induction false} OperandsPrintable(rt: Runtime, client: Client)
    ensures Printable(rt, Yes(client)) && Printable(rt, No(client)) && Printable(rt, FAILS)
  {
    ShortFieldsPrintable();
    BooleanConditionsPrintable(rt, "active", OpEq, client.active);
    BooleanConditionsPrintable(rt, "active", OpNeq, client.active);
    BooleanConditionsPrintable(rt, "active", OpIn, true);
  }

  lemma {:induction false} OperandOutcomes(rt: Runtime, client: Client)
    ensures Evaluate(rt, Yes(client), client) == Ok(true) && Evaluate(rt, No(client), client) == Ok(false)
    ensures Evaluate(rt, FAILS, client) == Err(TypeMismatch)
  {
    FilterFields.SplitWithoutDots("active");
    KnownConditions(rt, "active", client.active, client);
  }

  /**
   * Filters that some text denotes and that break the laws: for every client a true, a false and a
   * failing operand break commutativity and right distribution.
   */
  lemma {:induction false} BrokenLaws(rt: Runtime, client: Client)
    returns (yes: FilterNode, no: FilterNode, fails: FilterNode)
    ensures Printable(rt, And(no, fails)) && Printable(rt, And(fails, no))
    ensures Printable(rt, And(Or(yes, fails), no)) && Printable(rt, Or(And(yes, no), And(fails, no)))
    ensures Evaluate(rt, And(no, fails), client) == Ok(false)
    ensures Evaluate(rt, And(fails, no), client) == Err(TypeMismatch)
    ensures Evaluate(rt, And(Or(yes, fails), no), client) == Ok(false)
    ensures Evaluate(rt, Or(And(yes, no), And(fails, no)), client) == Err(TypeMismatch)
  {
    yes, no, fails := Yes(client), No(client), FAILS;
    OperandsPrintable(rt, client);
    OperandOutcomes(rt, client);
    OperandsBreakLaws(rt, yes, no, fails, client);
    CombinationsPrintable(rt, no, fails);
    CombinationsPrintable(rt, fails, no);
    CombinationsPrintable(rt, yes, no);
    CombinationsPrintable(rt, yes, fails);
    CombinationsPrintable(rt, Or(yes, fails), no);
    CombinationsPrintable(rt, And(yes, no), And(fails, no));
  }

  /** A field no client has breaks the operator complement: `NOT x == true` holds and `x != true` does not. */
  lemma {:induction false} BrokenComplement(rt: Runtime, client: Client)
    ensures Printable(rt, Not(Cond("x", OpEq, Bool(true)))) && Printable(rt, Cond("x", Complement(OpEq), Bool(true)))
    ensures Evaluate(rt, Not(Cond("x", OpEq, Bool(true))), client) == Ok(true)
    ensures Evaluate(rt, Cond("x", Complement(OpEq), Bool(true)), client) == Ok(false)
  {
    ShortFieldsPrintable();
    BooleanConditionsPrintable(rt, "x", OpEq, true);
    BooleanConditionsPrintable(rt, "x", OpNeq, true);
    CombinationsPrintable(rt, Cond("x", OpEq, Bool(true)), Cond("x", OpEq, Bool(true)));
    UnknownField(rt, client);
  }

  lemma {:induction false} UnknownField(rt: Runtime, client: Client)
    ensures Evaluate(rt, Not(Cond("x", OpEq, Bool(true))), client) == Ok(true)
    ensures Evaluate(rt, Cond("x", OpNeq, Bool(true)), client) == Ok(false)
  {
    FilterFields.SplitWithoutDots("x");
    assert GetField(client, "x") == None;
  }

  // ---------------------------------------------------------------- lists as chains of comparisons

  /** join(f op v1, ..., f op vn), left-associated as the parser would build it. */
  function Chain(join: LogicalOp, field: string, op: FilterOp, vs: seq<Value>): FilterNode
    requires |vs| > 0
  {
    var last := Cond(field, op, vs[|vs| - 1]);
    if |vs| == 1 then last else Node(None, join, Chain(join, field, op, vs[..|vs| - 1]), last)
  }

  /** f IN [v1..vn] is f == v1 OR ... OR f == vn, for unknown fields too. */
  lemma {:induction false} InIsAnyEqual(rt: Runtime, field: string, vs: seq<Value>, client: Client)
    requires |vs| > 0
    ensures Evaluate(rt, Cond(field, OpIn, List(vs)), client)
         == Evaluate(rt, Chain(LogicOr, field, OpEq, vs), client)
  {
    if |vs| > 1 {
      var init := vs[..|vs| - 1];
      InIsAnyEqual(rt, field, init, client);
      ListExtends(rt, field, vs, client);
    } else if GetField(client, field).Some? {
      assert EqualsAny(rt, GetField(client, field).value, vs[0])
          <==> exists i | 0 <= i < |vs| :: EqualsAny(rt, GetField(client, field).value, vs[i]);
    }
  }

  /** f NOT_IN [v1..vn] is f != v1 AND ... AND f != vn, for unknown fields too. */
  lemma {:induction false} NotInIsAllDifferent(rt: Runtime, field: string, vs: seq<Value>, client: Client)
    requires |vs| > 0
    ensures Evaluate(rt, Cond(field, OpNotIn, List(vs)), client)
         == Evaluate(rt, Chain(LogicAnd, field, OpNeq, vs), client)
  {
    if |vs| > 1 {
      var init := vs[..|vs| - 1];
      NotInIsAllDifferent(rt, field, init, client);
      ListExtends(rt, field, vs, client);
    } else if GetField(client, field).Some? {
      assert EqualsAny(rt, GetField(client, field).value, vs[0])
          <==> exists i | 0 <= i < |vs| :: EqualsAny(rt, GetField(client, field).value, vs[i]);
    }
  }

  lemma {:induction false} ListExtends(rt: Runtime, field: string, vs: seq<Value>, client: Client)
    requires |vs| > 1
    ensures GetField(client, field).Some? ==>
              var a := GetField(client, field).value;
              InAny(rt, a, List(vs)) == Ok(InAny(rt, a, List(vs[..|vs| - 1])).value || EqualsAny(rt, a, vs[|vs| - 1]))
  {
    if GetField(client, field).Some? {
      var a := GetField(client, field).value;
      var init := vs[..|vs| - 1];
      forall i | 0 <= i < |vs| && EqualsAny(rt, a, vs[i])
        ensures i == |vs| - 1 || EqualsAny(rt, a, init[i])
      {
      }
      forall i | 0 <= i < |init| && EqualsAny(rt, a, init[i])
        ensures EqualsAny(rt, a, vs[i])
      {
      }
    }
  }

  // ---------------------------------------------------------------- which filters can fail

  /** A well-formed tree fails in one way only: by comparing incompatible types. */
  lemma {:induction false} FailsOnlyByType(rt: Runtime, n: FilterNode, client: Client)
    requires WellFormed(n)
    ensures Evaluate(rt, n, client).Err? ==> Evaluate(rt, n, client).error == TypeMismatch
  {
    if n.condition.None? {
      FailsOnlyByType(rt, n.left, client);
      if !n.logical.LogicNot? {
        FailsOnlyByType(rt, n.right, client);
      }
    }
  }

  /** Whatever text was accepted, evaluating it never meets a malformed node or operator. */
  lemma {:induction false} ParsedFailsOnlyByType(rt: Runtime, text: string, client: Client)
    requires Parse(rt, text).Ok?
    ensures var r := Evaluate(rt, Parse(rt, text).value, client); r.Ok? || r == Err(TypeMismatch)
  {
    ParsedIsWellFormed(rt, text);
    if Parse(rt, text).value != Nil {
      FailsOnlyByType(rt, Parse(rt, text).value, client);
    }
  }

  /** Only == and !=, and membership in list literals. */
  predicate EqualityOnly(n: FilterNode) {
    && WellFormed(n)
    && match n.condition
       case Some(c) =>
         || c.op.OpEq? || c.op.OpNeq?
         || ((c.op.OpIn? || c.op.OpNotIn?) && c.value.List?)
       case None => EqualityOnly(n.left) && (n.logical.LogicNot? || EqualityOnly(n.right))
  }

  lemma {:induction false} EqualityNeverFails(rt: Runtime, n: FilterNode, client: Client)
    requires EqualityOnly(n)
    ensures Evaluate(rt, n, client).Ok?
  {
    if n.condition.None? {
      EqualityNeverFails(rt, n.left, client);
      if !n.logical.LogicNot? {
        EqualityNeverFails(rt, n.right, client);
      }
    }
  }

  /** Where nothing can fail the ordinary laws are back: AND and OR commute and distribute on both sides. */
  lemma {:induction false} EqualityIsBoolean(rt: Runtime, a: FilterNode, b: FilterNode, c: FilterNode, client: Client)
    requires EqualityOnly(a) && EqualityOnly(b) && EqualityOnly(c)
    ensures Evaluate(rt, And(a, b), client) == Evaluate(rt, And(b, a), client)
    ensures Evaluate(rt, Or(a, b), client) == Evaluate(rt, Or(b, a), client)
    ensures Evaluate(rt, And(Or(b, c), a), client) == Evaluate(rt, Or(And(b, a), And(c, a)), client)
    ensures Evaluate(rt, Or(And(b, c), a), client) == Evaluate(rt, And(Or(b, a), Or(c, a)), client)
  {
    EqualityNeverFails(rt, a, client);
    EqualityNeverFails(rt, b, client);
    EqualityNeverFails(rt, c, client);
    AndCommutesExactly(rt, a, b, client);
    OrCommutesExactly(rt, a, b, client);
    RightDistributionExactly(rt, a, b, c, client);
    RightDistributionOfOrExactly(rt, a, b, c, client);
  }
}
