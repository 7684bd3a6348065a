/**
 * The grammar of filter expressions, as derivation trees over tokens.
 *
 *   Disj    ::= Conj | Disj OR Conj
 *   Conj    ::= Neg | Conj AND Neg
 *   Neg     ::= Primary | NOT Neg
 *   Primary ::= ( Disj ) | identifier operator Operand
 *   Operand ::= literal | [ ] | [ Items ]
 *   Items   ::= Operand | Operand , Items
 */
module FilterGrammar {
  import opened Wrappers
  import opened Chars
  import opened FilterSyntax

  datatype Disj = Conj1(c: Conj) | OrElse(l: Disj, r: Conj)
  datatype Conj = Neg1(n: Neg) | AndAlso(l: Conj, r: Neg)
  datatype Neg = Primary1(p: Primary) | Negate(n: Neg)
  datatype Primary = Paren(d: Disj) | Compare(field: string, op: string, operand: Operand)
  datatype Operand = Literal(tok: Token) | EmptyList | Bracketed(items: Items)
  datatype Items = Last(v: Operand) | More(v: Operand, rest: Items)

  const OR := Token(TOp, "OR")
  const AND := Token(TOp, "AND")
  const NOT := Token(TOp, "NOT")
  const LPAREN := Token(TLParen, "(")
  const RPAREN := Token(TRParen, ")")
  const LBRACKET := Token(TLBracket, "[")
  const RBRACKET := Token(TRBracket, "]")
  const COMMA := Token(TComma, ",")

  // ---------------------------------------------------------------- literals

  function DigitsValue(ds: string): nat
    requires forall i | 0 <= i < |ds| :: IsDigit(ds[i])
  {
    if ds == "" then 0
    else
      var last := ds[|ds| - 1];
      assert IsDigit(last);
      10 * DigitsValue(ds[..|ds| - 1]) + (last - '0') as nat
  }

  function Pow10(n: nat): nat {
    if n == 0 then 1 else 10 * Pow10(n - 1)
  }

  predicate AllDigits(ds: string) {
    forall i | 0 <= i < |ds| :: IsDigit(ds[i])
  }

  /** Digits count by their place: what stands before others counts ten times for each of these. */
  lemma {:induction false} DigitsByPlace(a: string, b: string)
    requires AllDigits(a) && AllDigits(b)
    ensures AllDigits(a + b) && DigitsValue(a + b) == DigitsValue(a) * Pow10(|b|) + DigitsValue(b)
  {
    if b == "" {
      assert a + b == a;
    } else {
      var n := |b| - 1;
      DigitsByPlace(a, b[..n]);
      assert (a + b)[..|a + b| - 1] == a + b[..n];
      PlaceStep(DigitsValue(a), Pow10(n), DigitsValue(b[..n]));
    }
  }

  lemma {:induction false} PlaceStep(a: nat, p: nat, b: nat)
    ensures 10 * (a * p + b) == a * (10 * p) + 10 * b
  {
  }

  /** A digit alone counts as its position among the ten. */
  lemma {:induction false} DigitAlone(k: nat)
    requires k < 10
    ensures IsDigit(DIGITS[k]) && DigitsValue([DIGITS[k]]) == k
  {
    assert [DIGITS[k]][..0] == "";
  }

  const MIN_INT64 := -0x8000_0000_0000_0000
  const MAX_INT64 := 0x7FFF_FFFF_FFFF_FFFF

  predicate IsInt64(n: int) {
    MIN_INT64 <= n <= MAX_INT64
  }

  /** strconv.ParseInt in base 10 for 64 bits: an optional sign, digits, and a range check. */
  function ParseInt(text: string): Option<int> {
    var signed := text != "" && (text[0] == '-' || text[0] == '+');
    var ds := if signed then text[1..] else text;
    if ds == "" || exists i | 0 <= i < |ds| :: !IsDigit(ds[i]) then None
    else
      var n: int := if signed && text[0] == '-' then -(DigitsValue(ds) as int) else DigitsValue(ds);
      if IsInt64(n) then Some(n) else None
  }

  /** A text of digits, with a minus sign or without, is an integer unless it needs more than 64 bits. */
  lemma {:induction false} DigitsParse(ds: string)
    requires ds != "" && AllDigits(ds)
    ensures ParseInt(ds) == if DigitsValue(ds) <= 9223372036854775807 then Some(DigitsValue(ds)) else None
    ensures ParseInt("-" + ds) == if DigitsValue(ds) <= 9223372036854775808 then Some(0 - DigitsValue(ds)) else None
  {
    assert ("-" + ds)[1..] == ds;
  }

  /** The value of a one-token operand. */
  function LiteralValue(rt: Runtime, t: Token): Result<Value, FilterError> {
    match t.typ
    case TString => Ok(Str(t.val))
    case TNumber =>
      if '.' in t.val then
        match rt.parseFloat(t.val)
        case None => Err(NumberSyntax)
        case Some(f) => Ok(Flt(f))
      else
        (match ParseInt(t.val)
         case None => Err(NumberSyntax)
         case Some(n) => Ok(Int(n)))
    case TIdent =>
      if t.val == "true" then Ok(Bool(true))
      else if t.val == "false" then Ok(Bool(false))
      else Ok(Str(t.val))
    case _ => Err(InvalidFilter)
  }

  // ---------------------------------------------------------------- derivations: tokens derived

  /** The tokens of a derivation, followed by the tokens k. */
  function DisjYield(d: Disj, k: seq<Token>): seq<Token> {
    match d
    case Conj1(c) => ConjYield(c, k)
    case OrElse(l, r) => DisjYield(l, [OR] + ConjYield(r, k))
  }

  function ConjYield(c: Conj, k: seq<Token>): seq<Token> {
    match c
    case Neg1(n) => NegYield(n, k)
    case AndAlso(l, r) => ConjYield(l, [AND] + NegYield(r, k))
  }

  function NegYield(n: Neg, k: seq<Token>): seq<Token> {
    match n
    case Primary1(p) => PrimaryYield(p, k)
    case Negate(m) => [NOT] + NegYield(m, k)
  }

  function PrimaryYield(p: Primary, k: seq<Token>): seq<Token> {
    match p
    case Paren(d) => [LPAREN] + DisjYield(d, [RPAREN] + k)
    case Compare(field, op, v) => [Token(TIdent, field)] + ([Token(TOp, op)] + OperandYield(v, k))
  }

  function OperandYield(v: Operand, k: seq<Token>): seq<Token> {
    match v
    case Literal(t) => [t] + k
    case EmptyList => [LBRACKET] + ([RBRACKET] + k)
    case Bracketed(items) => [LBRACKET] + ItemsYield(items, [RBRACKET] + k)
  }

  function ItemsYield(xs: Items, k: seq<Token>): seq<Token> {
    match xs
    case Last(v) => OperandYield(v, k)
    case More(v, rest) => OperandYield(v, [COMMA] + ItemsYield(rest, k))
  }

  // ---------------------------------------------------------------- derivations: side conditions

  predicate DisjLegal(rt: Runtime, d: Disj) {
    match d
    case Conj1(c) => ConjLegal(rt, c)
    case OrElse(l, r) => DisjLegal(rt, l) && ConjLegal(rt, r)
  }

  predicate ConjLegal(rt: Runtime, c: Conj) {
    match c
    case Neg1(n) => NegLegal(rt, n)
    case AndAlso(l, r) => ConjLegal(rt, l) && NegLegal(rt, r)
  }

  predicate NegLegal(rt: Runtime, n: Neg) {
    match n
    case Primary1(p) => PrimaryLegal(rt, p)
    case Negate(m) => NegLegal(rt, m)
  }

  /** The operator of a comparison is a known one. */
  predicate PrimaryLegal(rt: Runtime, p: Primary) {
    match p
    case Paren(d) => DisjLegal(rt, d)
    case Compare(_, op, v) => IsKnownOp(ToOp(op)) && OperandLegal(rt, v)
  }

  /** A literal token has a value; numbers out of range have none. */
  predicate OperandLegal(rt: Runtime, v: Operand) {
    match v
    case Literal(t) => LiteralValue(rt, t).Ok?
    case EmptyList => true
    case Bracketed(items) => ItemsLegal(rt, items)
  }

  predicate ItemsLegal(rt: Runtime, xs: Items) {
    match xs
    case Last(v) => OperandLegal(rt, v)
    case More(v, rest) => OperandLegal(rt, v) && ItemsLegal(rt, rest)
  }

  // ---------------------------------------------------------------- derivations: filter denoted

  function DisjTree(rt: Runtime, d: Disj): FilterNode
    requires DisjLegal(rt, d)
  {
    match d
    case Conj1(c) => ConjTree(rt, c)
    case OrElse(l, r) => Or(DisjTree(rt, l), ConjTree(rt, r))
  }

  function ConjTree(rt: Runtime, c: Conj): FilterNode
    requires ConjLegal(rt, c)
  {
    match c
    case Neg1(n) => NegTree(rt, n)
    case AndAlso(l, r) => And(ConjTree(rt, l), NegTree(rt, r))
  }

  function NegTree(rt: Runtime, n: Neg): FilterNode
    requires NegLegal(rt, n)
  {
    match n
    case Primary1(p) => PrimaryTree(rt, p)
    case Negate(m) => Not(NegTree(rt, m))
  }

  function PrimaryTree(rt: Runtime, p: Primary): FilterNode
    requires PrimaryLegal(rt, p)
  {
    match p
    case Paren(d) => DisjTree(rt, d)
    case Compare(field, op, v) => Cond(field, ToOp(op), OperandValue(rt, v))
  }

  function OperandValue(rt: Runtime, v: Operand): Value
    requires OperandLegal(rt, v)
  {
    match v
    case Literal(t) => LiteralValue(rt, t).value
    case EmptyList => List([])
    case Bracketed(items) => List(ItemsValues(rt, items))
  }

  function ItemsValues(rt: Runtime, xs: Items): seq<Value>
    requires ItemsLegal(rt, xs)
  {
    match xs
    case Last(v) => [OperandValue(rt, v)]
    case More(v, rest) => [OperandValue(rt, v)] + ItemsValues(rt, rest)
  }

  /** Every filter the grammar denotes has only well-formed nodes. */
  lemma {:induction false} DisjTreeWellFormed(rt: Runtime, d: Disj)
    requires DisjLegal(rt, d)
    ensures WellFormed(DisjTree(rt, d))
  {
    match d
    case Conj1(c) => ConjTreeWellFormed(rt, c);
    case OrElse(l, r) => DisjTreeWellFormed(rt, l); ConjTreeWellFormed(rt, r);
  }

  lemma {:induction false} ConjTreeWellFormed(rt: Runtime, c: Conj)
    requires ConjLegal(rt, c)
    ensures WellFormed(ConjTree(rt, c))
  {
    match c
    case Neg1(n) => NegTreeWellFormed(rt, n);
    case AndAlso(l, r) => ConjTreeWellFormed(rt, l); NegTreeWellFormed(rt, r);
  }

  lemma {:induction false} NegTreeWellFormed(rt: Runtime, n: Neg)
    requires NegLegal(rt, n)
    ensures WellFormed(NegTree(rt, n))
  {
    match n
    case Primary1(Paren(d)) => DisjTreeWellFormed(rt, d);
    case Primary1(Compare(_, _, _)) =>
    case Negate(m) => NegTreeWellFormed(rt, m);
  }
}
