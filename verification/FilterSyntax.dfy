/**
 * Entities of the client filter language: values, tokens and the filter tree.
 *
 * Library calls whose text or rounding is not modelled (strconv.ParseFloat, the int64 to
 * float64 conversion and the fmt "%v" verb) are the fields of a Runtime; every result
 * holds for all of them.
 */
module FilterSyntax {
  import opened Wrappers

  /** A float64 up to rounding: NaN compares with nothing, itself included. */
  datatype Float = NaN | NegInf | Fin(r: real) | PosInf {

    predicate Equals(that: Float) {
      !NaN? && this == that
    }

    predicate Less(that: Float) {
      match this
      case NaN => false
      case NegInf => that.Fin? || that.PosInf?
      case Fin(x) => that.PosInf? || (that.Fin? && x < that.r)
      case PosInf => false
    }
  }

  /** The dynamic values a filter can compare. */
  datatype Value =
    | Null
    | Str(s: string)
    | Int(i: int)
    | Flt(f: Float)
    | Bool(b: bool)
    | List(vs: seq<Value>)
    | Strs(ss: seq<string>)
    | Dict(m: map<string, Value>)
    | Labels(labels: map<string, string>)

  datatype Runtime = Runtime(
    parseFloat: string -> Option<Float>,
    intToFloat: int -> Float,
    sprint: Value -> string)

  datatype FilterError = InvalidFilter | NumberSyntax | TypeMismatch | InvalidOperator

  datatype TokenType = TIdent | TString | TNumber | TOp | TLParen | TRParen | TComma | TLBracket | TRBracket | TEOF

  datatype Token = Token(typ: TokenType, val: string)

  const EOF := Token(TEOF, "")

  datatype FilterOp =
    | OpEq | OpNeq | OpLt | OpGt | OpLte | OpGte
    | OpIn | OpNotIn | OpContains | OpNotContains
    | OpOther(text: string)

  /** The operator a raw token text denotes. */
  function ToOp(text: string): FilterOp {
    if text == "==" then OpEq
    else if text == "!=" then OpNeq
    else if text == "<" then OpLt
    else if text == ">" then OpGt
    else if text == "<=" then OpLte
    else if text == ">=" then OpGte
    else if text == "IN" then OpIn
    else if text == "NOT_IN" then OpNotIn
    else if text == "CONTAINS" then OpContains
    else if text == "NOT_CONTAINS" then OpNotContains
    else OpOther(text)
  }

  function OpText(op: FilterOp): (text: string)
    ensures ToOp(text) == op || op.OpOther?
  {
    match op
    case OpEq => "=="
    case OpNeq => "!="
    case OpLt => "<"
    case OpGt => ">"
    case OpLte => "<="
    case OpGte => ">="
    case OpIn => "IN"
    case OpNotIn => "NOT_IN"
    case OpContains => "CONTAINS"
    case OpNotContains => "NOT_CONTAINS"
    case OpOther(text) => text
  }

  predicate IsKnownOp(op: FilterOp) {
    !op.OpOther?
  }

  datatype FilterCondition = FilterCondition(field: string, op: FilterOp, value: Value)

  datatype LogicalOp = LogicNone | LogicAnd | LogicOr | LogicNot

  /**
   * The filter tree with the freedom the Go struct has: a nil pointer is Nil, a condition may
   * be missing, and nothing ties the logical operator to the children.
   */
  datatype FilterNode =
    | Nil
    | Node(condition: Option<FilterCondition>, logical: LogicalOp, left: FilterNode, right: FilterNode)

  function Cond(field: string, op: FilterOp, value: Value): FilterNode {
    Node(Some(FilterCondition(field, op, value)), LogicNone, Nil, Nil)
  }

  function And(l: FilterNode, r: FilterNode): FilterNode {
    Node(None, LogicAnd, l, r)
  }

  function Or(l: FilterNode, r: FilterNode): FilterNode {
    Node(None, LogicOr, l, r)
  }

  function Not(n: FilterNode): FilterNode {
    Node(None, LogicNot, n, Nil)
  }

  /** The trees built only by Cond, And, Or and Not, with operators the evaluator knows. */
  predicate WellFormed(n: FilterNode) {
    && n.Node?
    && (n.condition.Some? ==>
          && n == Cond(n.condition.value.field, n.condition.value.op, n.condition.value.value)
          && IsKnownOp(n.condition.value.op))
    && (n.condition.None? ==>
          && !n.logical.LogicNone?
          && WellFormed(n.left)
          && if n.logical.LogicNot? then n.right == Nil else WellFormed(n.right))
  }
}
