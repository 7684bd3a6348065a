/** Clients, field lookup, and the short-circuiting filter evaluator with its errors. */
module FilterEval {
  import opened Wrappers
  import opened FilterSyntax

  datatype Client = Client(
    id: string, os: string, labels: map<string, string>, state: map<string, Value>, active: bool)

  type Outcome = Result<bool, FilterError>

  /** strings.Split(path, "."): never empty. */
  function SplitDots(path: string): (parts: seq<string>)
    ensures |parts| >= 1
  {
    if path == "" then [""]
    else
      var rest := SplitDots(path[1..]);
      if path[0] == '.' then [""] + rest else [[path[0]] + rest[0]] + rest[1..]
  }

  /** The value of a field, or None for an unknown one. */
  function GetField(c: Client, path: string): Option<Value> {
    var parts := SplitDots(path);
    if parts[0] == "client_id" || parts[0] == "id" then Some(Str(c.id))
    else if parts[0] == "os" then Some(Str(c.os))
    else if parts[0] == "active" then Some(Bool(c.active))
    else if parts[0] == "labels" then
      if |parts| < 2 then Some(Labels(c.labels))
      else if parts[1] in c.labels then Some(Str(c.labels[parts[1]]))
      else None
    else if parts[0] == "state" || parts[0] == "inner_state" then
      if |parts| < 2 then Some(Dict(c.state)) else NavigateMap(c.state, parts[1..])
    else None
  }

  function NavigateMap(m: map<string, Value>, parts: seq<string>): Option<Value>
    decreases |parts|
  {
    if parts == [] then Some(Dict(m))
    else if parts[0] !in m then None
    else if |parts| == 1 then Some(m[parts[0]])
    else
      match m[parts[0]]
      case Dict(sub) => NavigateMap(sub, parts[1..])
      case _ => None
  }

  function ToFloat(rt: Runtime, v: Value): Option<Float> {
    match v
    case Flt(f) => Some(f)
    case Int(i) => Some(rt.intToFloat(i))
    case Str(s) => rt.parseFloat(s)
    case Bool(b) => Some(Fin(if b then 1.0 else 0.0))
    case _ => None
  }

  predicate EqualsAny(rt: Runtime, a: Value, b: Value) {
    if a == Null || b == Null then a == b
    else
      match (ToFloat(rt, a), ToFloat(rt, b))
      case (Some(x), Some(y)) => x.Equals(y)
      case _ => rt.sprint(a) == rt.sprint(b)
  }

  function NumericCompare(rt: Runtime, a: Value, op: FilterOp, b: Value): Outcome {
    match (ToFloat(rt, a), ToFloat(rt, b))
    case (Some(x), Some(y)) =>
      (match op
       case OpLt => Ok(x.Less(y))
       case OpGt => Ok(y.Less(x))
       case OpLte => Ok(x.Less(y) || x.Equals(y))
       case OpGte => Ok(y.Less(x) || x.Equals(y))
       case _ => Err(InvalidOperator))
    case _ => Err(TypeMismatch)
  }

  function InAny(rt: Runtime, a: Value, b: Value): Outcome {
    match b
    case List(vs) => Ok(exists i | 0 <= i < |vs| :: EqualsAny(rt, a, vs[i]))
    case Strs(ss) => Ok(rt.sprint(a) in ss)
    case _ => Err(TypeMismatch)
  }

  function ContainsAny(rt: Runtime, a: Value, b: Value): Outcome {
    match (a, b)
    case (Str(x), Str(y)) => Ok(exists i | 0 <= i <= |x| :: y <= x[i..])
    case (List(vs), _) => Ok(exists i | 0 <= i < |vs| :: EqualsAny(rt, vs[i], b))
    case _ => Err(TypeMismatch)
  }

  function Negated(r: Outcome): Outcome {
    match r
    case Ok(b) => Ok(!b)
    case Err(e) => Err(e)
  }

  function CompareValues(rt: Runtime, a: Value, op: FilterOp, b: Value): Outcome {
    match op
    case OpEq => Ok(EqualsAny(rt, a, b))
    case OpNeq => Ok(!EqualsAny(rt, a, b))
    case OpIn => InAny(rt, a, b)
    case OpNotIn => Negated(InAny(rt, a, b))
    case OpContains => ContainsAny(rt, a, b)
    case OpNotContains => Negated(ContainsAny(rt, a, b))
    case OpOther(_) => Err(InvalidOperator)
    case _ => NumericCompare(rt, a, op, b)
  }

  /** A condition on an unknown field does not match, whatever its operator. */
  function EvalCondition(rt: Runtime, c: FilterCondition, client: Client): Outcome {
    match GetField(client, c.field)
    case None => Ok(false)
    case Some(v) => CompareValues(rt, v, c.op, c.value)
  }

  /** Left to right, stopping at the first error or at the first operand that decides. */
  function Evaluate(rt: Runtime, n: FilterNode, client: Client): Outcome {
    match n
    case Nil => Ok(true)
    case Node(Some(c), _, _, _) => EvalCondition(rt, c, client)
    case Node(None, logical, left, right) =>
      match logical
      case LogicNot => Negated(Evaluate(rt, left, client))
      case LogicAnd =>
        (match Evaluate(rt, left, client)
         case Err(e) => Err(e)
         case Ok(l) => if !l then Ok(false) else Evaluate(rt, right, client))
      case LogicOr =>
        (match Evaluate(rt, left, client)
         case Err(e) => Err(e)
         case Ok(l) => if l then Ok(true) else Evaluate(rt, right, client))
      case LogicNone => Err(InvalidFilter)
  }
}
