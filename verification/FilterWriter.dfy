/**
 * Filter trees as plain text, character by character: what is written is parsed back, and each of
 * the ten operator texts selects the clients its comparison says.
 */
module FilterWriter {
  import opened Sequences
  import opened Wrappers
  import opened Chars
  import opened FilterSyntax
  import opened FilterLexer
  import opened FilterGrammar
  import opened FilterReader
  import opened FilterText
  import opened FilterPrinter
  import opened FilterEval
  import opened FilterFields

  // ---------------------------------------------------------------- the text of a tree

  ghost function WriteOr(rt: Runtime, n: FilterNode): string
    requires Printable(rt, n)
    decreases n, 3
  {
    if n.condition.None? && n.logical.LogicOr? then WriteOr(rt, n.left) + (" OR " + WriteAnd(rt, n.right))
    else WriteAnd(rt, n)
  }

  ghost function WriteAnd(rt: Runtime, n: FilterNode): string
    requires Printable(rt, n)
    decreases n, 2
  {
    if n.condition.None? && n.logical.LogicAnd? then WriteAnd(rt, n.left) + (" AND " + WriteNot(rt, n.right))
    else WriteNot(rt, n)
  }

  ghost function WriteNot(rt: Runtime, n: FilterNode): string
    requires Printable(rt, n)
    decreases n, 1
  {
    if n.condition.None? && n.logical.LogicNot? then "NOT " + WriteNot(rt, n.left) else WriteAtom(rt, n)
  }

  /** A condition, or a connective in parentheses. */
  ghost function WriteAtom(rt: Runtime, n: FilterNode): string
    requires Printable(rt, n) && (n.condition.None? ==> !n.logical.LogicNot?)
    decreases n, 0
  {
    match n.condition
    case Some(c) => c.field + (" " + (OpText(c.op) + (" " + WriteValue(rt, c.value))))
    case None =>
      if n.logical.LogicAnd? then "(" + ((WriteAnd(rt, n.left) + (" AND " + WriteNot(rt, n.right))) + ")")
      else "(" + ((WriteOr(rt, n.left) + (" OR " + WriteAnd(rt, n.right))) + ")")
  }

  ghost function WriteValue(rt: Runtime, v: Value): string
    requires ValuePrintable(rt, v)
    decreases v
  {
    match v
    case Str(s) => if '\'' !in s then "'" + s + "'" else "\"" + s + "\""
    case Int(i) => IntText(i)
    case Bool(b) => if b then "true" else "false"
    case Flt(f) => FloatText(rt, f)
    case List(vs) => if vs == [] then "[]" else "[" + (WriteValues(rt, vs) + "]")
  }

  ghost function WriteValues(rt: Runtime, vs: seq<Value>): string
    requires vs != [] && forall x | x in vs :: ValuePrintable(rt, x)
    decreases vs
  {
    if |vs| == 1 then WriteValue(rt, vs[0]) else WriteValue(rt, vs[0]) + (", " + WriteValues(rt, vs[1..]))
  }

  // ---------------------------------------------------------------- cut texts, from the right

  /** The text begins with nothing that could be part of a word before it. */
  predicate Apart(k: seq<Piece>) {
    Text(k) != "" ==> Text(k)[0] in [' ', ')', ']', ',']
  }

  /** k is a well-cut text that stands for these tokens. */
  ghost predicate Cut(k: seq<Piece>, text: string, ts: seq<Token>) {
    Good(k) && Text(k) == text && Tokens(k) + [EOF] == ts
  }

  lemma {:induction false} NeverFuses(w: string, t: Token, c: char)
    requires Spells(w, t) && |w| > 0 && c in [' ', ')', ']', ',']
    ensures !Fuses(w, c)
  {
  }

  lemma {:induction false} WordThen(w: string, t: Token, k: seq<Piece>, text: string, ts: seq<Token>)
    returns (ps: seq<Piece>)
    requires Cut(k, text, ts) && Apart(k) && Spells(w, t) && |w| > 0
    ensures Cut(ps, w + text, [t] + ts)
  {
    if Text(k) != "" {
      NeverFuses(w, t, Text(k)[0]);
    }
    WordInFront(w, t, k);
    ps := [Word(w, t)] + k;
    Regroup([t], Tokens(k), [EOF]);
  }

  /** Opening brackets fuse with nothing. */
  lemma {:induction false} OpenThen(t: Token, k: seq<Piece>, text: string, ts: seq<Token>) returns (ps: seq<Piece>)
    requires Cut(k, text, ts) && (t == LPAREN || t == LBRACKET)
    ensures Cut(ps, t.val + text, [t] + ts)
  {
    WordInFront(t.val, t, k);
    ps := [Word(t.val, t)] + k;
    Regroup([t], Tokens(k), [EOF]);
  }

  /** Closing brackets and commas stand apart from what is before them. */
  lemma {:induction false} CloseThen(t: Token, k: seq<Piece>, text: string, ts: seq<Token>) returns (ps: seq<Piece>)
    requires Cut(k, text, ts) && (t == RPAREN || t == RBRACKET || t == COMMA)
    ensures Cut(ps, t.val + text, [t] + ts) && Apart(ps)
  {
    WordInFront(t.val, t, k);
    ps := [Word(t.val, t)] + k;
    Regroup([t], Tokens(k), [EOF]);
    assert (t.val + text)[0] == t.val[0];
  }

  lemma {:induction false} BlankThen(k: seq<Piece>, text: string, ts: seq<Token>) returns (ps: seq<Piece>)
    requires Cut(k, text, ts)
    ensures Cut(ps, " " + text, ts) && Apart(ps)
  {
    GapInFront(' ', k);
    ps := [Gap(' ')] + k;
    assert (" " + text)[0] == ' ';
  }

  lemma {:induction false} ThreeParts(a: string, b: string, c: string, d: string)
    ensures a + (b + (c + d)) == (a + (b + c)) + d
  {
  }

  /** A word between blanks. */
  lemma {:induction false} BetweenBlanks(w: string, t: Token, k: seq<Piece>, text: string, ts: seq<Token>)
    returns (ps: seq<Piece>)
    requires Cut(k, text, ts) && Spells(w, t) && |w| > 0
    ensures Cut(ps, (" " + w + " ") + text, [t] + ts) && Apart(ps)
  {
    var a := BlankThen(k, text, ts);
    var b := WordThen(w, t, a, " " + text, ts);
    ps := BlankThen(b, w + (" " + text), [t] + ts);
    ThreeParts(" ", w, " ", text);
    Regroup(" ", w, " ");
  }

  lemma {:induction false} OrThen(k: seq<Piece>, text: string, ts: seq<Token>) returns (ps: seq<Piece>)
    requires Cut(k, text, ts)
    ensures Cut(ps, " OR " + text, [OR] + ts) && Apart(ps)
  {
    assert ToUpper("OR") == "OR";
    ps := BetweenBlanks("OR", OR, k, text, ts);
    assert " " + "OR" + " " == " OR ";
  }

  lemma {:induction false} AndThen(k: seq<Piece>, text: string, ts: seq<Token>) returns (ps: seq<Piece>)
    requires Cut(k, text, ts)
    ensures Cut(ps, " AND " + text, [AND] + ts) && Apart(ps)
  {
    assert ToUpper("AND") == "AND";
    ps := BetweenBlanks("AND", AND, k, text, ts);
    assert " " + "AND" + " " == " AND ";
  }

  lemma {:induction false} NotThen(k: seq<Piece>, text: string, ts: seq<Token>) returns (ps: seq<Piece>)
    requires Cut(k, text, ts)
    ensures Cut(ps, "NOT " + text, [NOT] + ts)
  {
    assert ToUpper("NOT") == "NOT";
    var spaced := BlankThen(k, text, ts);
    ps := WordThen("NOT", NOT, spaced, " " + text, ts);
    assert "NOT" + (" " + text) == "NOT " + text;
  }

  // ---------------------------------------------------------------- written trees are read back

  lemma {:induction false} WrittenOr(rt: Runtime, n: FilterNode, k: seq<Piece>, text: string, ts: seq<Token>)
    returns (ps: seq<Piece>)
    requires Printable(rt, n) && Cut(k, text, ts) && Apart(k)
    ensures Cut(ps, WriteOr(rt, n) + text, DisjYield(PrintDisj(rt, n), ts))
    decreases n, 3
  {
    if n.condition.None? && n.logical.LogicOr? {
      ps := WrittenOrElse(rt, n.left, n.right, k, text, ts);
      assert WriteOr(rt, n) == WriteOr(rt, n.left) + (" OR " + WriteAnd(rt, n.right));
    } else {
      ps := WrittenAnd(rt, n, k, text, ts);
    }
  }

  lemma {:induction false} WrittenOrElse(
      rt: Runtime, l: FilterNode, r: FilterNode, k: seq<Piece>, text: string, ts: seq<Token>)
    returns (ps: seq<Piece>)
    requires Printable(rt, l) && Printable(rt, r) && Cut(k, text, ts) && Apart(k)
    ensures Cut(ps, (WriteOr(rt, l) + (" OR " + WriteAnd(rt, r))) + text,
                DisjYield(OrElse(PrintDisj(rt, l), PrintConj(rt, r)), ts))
    decreases Or(l, r), 0, 1
  {
    var right := WrittenAnd(rt, r, k, text, ts);
    var us := ConjYield(PrintConj(rt, r), ts);
    var mid := OrThen(right, WriteAnd(rt, r) + text, us);
    ps := WrittenOr(rt, l, mid, " OR " + (WriteAnd(rt, r) + text), [OR] + us);
    ThreeParts(WriteOr(rt, l), " OR ", WriteAnd(rt, r), text);
  }

  lemma {:induction false} WrittenAnd(rt: Runtime, n: FilterNode, k: seq<Piece>, text: string, ts: seq<Token>)
    returns (ps: seq<Piece>)
    requires Printable(rt, n) && Cut(k, text, ts) && Apart(k)
    ensures Cut(ps, WriteAnd(rt, n) + text, ConjYield(PrintConj(rt, n), ts))
    decreases n, 2
  {
    if n.condition.None? && n.logical.LogicAnd? {
      ps := WrittenAndAlso(rt, n.left, n.right, k, text, ts);
      assert WriteAnd(rt, n) == WriteAnd(rt, n.left) + (" AND " + WriteNot(rt, n.right));
    } else {
      ps := WrittenNot(rt, n, k, text, ts);
    }
  }

  lemma {:induction false} WrittenAndAlso(
      rt: Runtime, l: FilterNode, r: FilterNode, k: seq<Piece>, text: string, ts: seq<Token>)
    returns (ps: seq<Piece>)
    requires Printable(rt, l) && Printable(rt, r) && Cut(k, text, ts) && Apart(k)
    ensures Cut(ps, (WriteAnd(rt, l) + (" AND " + WriteNot(rt, r))) + text,
                ConjYield(AndAlso(PrintConj(rt, l), PrintNeg(rt, r)), ts))
    decreases And(l, r), 0, 1
  {
    var right := WrittenNot(rt, r, k, text, ts);
    var us := NegYield(PrintNeg(rt, r), ts);
    var mid := AndThen(right, WriteNot(rt, r) + text, us);
    ps := WrittenAnd(rt, l, mid, " AND " + (WriteNot(rt, r) + text), [AND] + us);
    ThreeParts(WriteAnd(rt, l), " AND ", WriteNot(rt, r), text);
  }

  lemma {:induction false} WrittenNot(rt: Runtime, n: FilterNode, k: seq<Piece>, text: string, ts: seq<Token>)
    returns (ps: seq<Piece>)
    requires Printable(rt, n) && Cut(k, text, ts) && Apart(k)
    ensures Cut(ps, WriteNot(rt, n) + text, NegYield(PrintNeg(rt, n), ts))
    decreases n, 1
  {
    if n.condition.None? && n.logical.LogicNot? {
      var under := WrittenNot(rt, n.left, k, text, ts);
      var us := NegYield(PrintNeg(rt, n.left), ts);
      ps := NotThen(under, WriteNot(rt, n.left) + text, us);
      Regroup("NOT ", WriteNot(rt, n.left), text);
    } else {
      ps := WrittenAtom(rt, n, k, text, ts);
    }
  }

  lemma {:induction false} WrittenAtom(rt: Runtime, n: FilterNode, k: seq<Piece>, text: string, ts: seq<Token>)
    returns (ps: seq<Piece>)
    requires Printable(rt, n) && (n.condition.None? ==> !n.logical.LogicNot?) && Cut(k, text, ts) && Apart(k)
    ensures Cut(ps, WriteAtom(rt, n) + text, PrimaryYield(PrintPrimary(rt, n), ts))
    decreases n, 0, 3
  {
    if n.condition.Some? {
      var c := n.condition.value;
      ps := WrittenCondition(rt, c.field, c.op, c.value, k, text, ts);
    } else {
      ps := WrittenParen(rt, n, k, text, ts);
    }
  }

  lemma {:induction false} WrittenCondition(
      rt: Runtime, field: string, op: FilterOp, v: Value, k: seq<Piece>, text: string, ts: seq<Token>)
    returns (ps: seq<Piece>)
    requires FieldPrintable(field) && IsKnownOp(op) && ValuePrintable(rt, v) && Cut(k, text, ts) && Apart(k)
    ensures Cut(ps, (field + (" " + (OpText(op) + (" " + WriteValue(rt, v))))) + text,
                PrimaryYield(Compare(field, OpText(op), PrintValue(rt, v)), ts))
    decreases Cond(field, op, v), 0, 2
  {
    var value := WrittenValue(rt, v, k, text, ts);
    ps := FieldAndOp(field, op, value, WriteValue(rt, v) + text, OperandYield(PrintValue(rt, v), ts));
    FiveParts(field, " ", OpText(op), WriteValue(rt, v), text);
  }

  lemma {:induction false} FiveParts(a: string, blank: string, b: string, c: string, d: string)
    ensures a + ((blank + b + blank) + (c + d)) == (a + (blank + (b + (blank + c)))) + d
  {
  }

  /** A connective in parentheses. */
  lemma {:induction false} WrittenParen(rt: Runtime, n: FilterNode, k: seq<Piece>, text: string, ts: seq<Token>)
    returns (ps: seq<Piece>)
    requires Printable(rt, n) && n.condition.None? && !n.logical.LogicNot? && Cut(k, text, ts)
    ensures Cut(ps, WriteAtom(rt, n) + text, PrimaryYield(PrintPrimary(rt, n), ts))
    decreases n, 0, 2
  {
    var close := CloseThen(RPAREN, k, text, ts);
    if n.logical.LogicAnd? {
      var body := WrittenAndAlso(rt, n.left, n.right, close, ")" + text, [RPAREN] + ts);
      ps := Enclosed(WriteAnd(rt, n.left) + (" AND " + WriteNot(rt, n.right)), body, text,
        ConjYield(AndAlso(PrintConj(rt, n.left), PrintNeg(rt, n.right)), [RPAREN] + ts));
    } else {
      var body := WrittenOrElse(rt, n.left, n.right, close, ")" + text, [RPAREN] + ts);
      ps := Enclosed(WriteOr(rt, n.left) + (" OR " + WriteAnd(rt, n.right)), body, text,
        DisjYield(OrElse(PrintDisj(rt, n.left), PrintConj(rt, n.right)), [RPAREN] + ts));
    }
  }

  lemma {:induction false} Enclosed(inner: string, k: seq<Piece>, text: string, ts: seq<Token>)
    returns (ps: seq<Piece>)
    requires Cut(k, inner + (")" + text), ts)
    ensures Cut(ps, ("(" + (inner + ")")) + text, [LPAREN] + ts)
  {
    ps := OpenThen(LPAREN, k, inner + (")" + text), ts);
    assert "(" + (inner + (")" + text)) == ("(" + (inner + ")")) + text;
  }

  lemma {:induction false} FieldAndOp(field: string, op: FilterOp, k: seq<Piece>, text: string, ts: seq<Token>)
    returns (ps: seq<Piece>)
    requires FieldPrintable(field) && IsKnownOp(op) && Cut(k, text, ts)
    ensures Cut(ps, field + ((" " + OpText(op) + " ") + text), [Token(TIdent, field)] + ([Token(TOp, OpText(op))] + ts))
  {
    OperatorSpells(op);
    var rest := BetweenBlanks(OpText(op), Token(TOp, OpText(op)), k, text, ts);
    ps := WordThen(field, Token(TIdent, field), rest, (" " + OpText(op) + " ") + text, [Token(TOp, OpText(op))] + ts);
  }

  lemma {:induction false} OperatorSpells(op: FilterOp)
    requires IsKnownOp(op)
    ensures Spells(OpText(op), Token(TOp, OpText(op))) && |OpText(op)| > 0
  {
    var w := OpText(op);
    if op.OpIn? || op.OpNotIn? || op.OpContains? || op.OpNotContains? {
      assert ToUpper(w) == w && w in KEYWORDS && WordShape(w);
    } else {
      assert OperatorShape(w);
    }
  }

  lemma {:induction false} WrittenValue(rt: Runtime, v: Value, k: seq<Piece>, text: string, ts: seq<Token>)
    returns (ps: seq<Piece>)
    requires ValuePrintable(rt, v) && Cut(k, text, ts) && Apart(k)
    ensures Cut(ps, WriteValue(rt, v) + text, OperandYield(PrintValue(rt, v), ts))
    decreases v
  {
    if v.List? {
      ps := WrittenList(rt, v.vs, k, text, ts);
    } else {
      LiteralSpelled(rt, v);
      ps := WordThen(WriteValue(rt, v), PrintValue(rt, v).tok, k, text, ts);
    }
  }

  lemma {:induction false} LiteralSpelled(rt: Runtime, v: Value)
    requires ValuePrintable(rt, v) && !v.List?
    ensures PrintValue(rt, v).Literal?
    ensures Spells(WriteValue(rt, v), PrintValue(rt, v).tok) && |WriteValue(rt, v)| > 0
  {
    match v
    case Str(s) =>
      assert Quoted(WriteValue(rt, v), s);
    case Int(i) =>
    case Bool(b) =>
      assert ToUpper("true") == "TRUE" && ToUpper("false") == "FALSE";
      assert ToLower("true") == "true" && ToLower("false") == "false";
      assert WordShape("true") && WordShape("false");
    case Flt(f) =>
  }

  lemma {:induction false} WrittenList(rt: Runtime, vs: seq<Value>, k: seq<Piece>, text: string, ts: seq<Token>)
    returns (ps: seq<Piece>)
    requires ValuePrintable(rt, List(vs)) && Cut(k, text, ts)
    ensures Cut(ps, WriteValue(rt, List(vs)) + text, OperandYield(PrintValue(rt, List(vs)), ts))
    decreases vs, 1
  {
    var close := CloseThen(RBRACKET, k, text, ts);
    if vs == [] {
      ps := OpenThen(LBRACKET, close, "]" + text, [RBRACKET] + ts);
      assert "[" + ("]" + text) == "[]" + text;
    } else {
      var items := WrittenValues(rt, vs, close, "]" + text, [RBRACKET] + ts);
      ps := OpenThen(
        LBRACKET, items, WriteValues(rt, vs) + ("]" + text), ItemsYield(PrintValues(rt, vs), [RBRACKET] + ts));
      assert "[" + (WriteValues(rt, vs) + ("]" + text)) == ("[" + (WriteValues(rt, vs) + "]")) + text;
    }
  }

  lemma {:induction false} WrittenValues(rt: Runtime, vs: seq<Value>, k: seq<Piece>, text: string, ts: seq<Token>)
    returns (ps: seq<Piece>)
    requires vs != [] && (forall x | x in vs :: ValuePrintable(rt, x)) && Cut(k, text, ts) && Apart(k)
    ensures Cut(ps, WriteValues(rt, vs) + text, ItemsYield(PrintValues(rt, vs), ts))
    decreases vs, 0
  {
    if |vs| == 1 {
      ps := WrittenValue(rt, vs[0], k, text, ts);
    } else {
      var rest := WrittenValues(rt, vs[1..], k, text, ts);
      var us := ItemsYield(PrintValues(rt, vs[1..]), ts);
      var spaced := BlankThen(rest, WriteValues(rt, vs[1..]) + text, us);
      var comma := CloseThen(COMMA, spaced, " " + (WriteValues(rt, vs[1..]) + text), us);
      assert "," + (" " + (WriteValues(rt, vs[1..]) + text)) == ", " + (WriteValues(rt, vs[1..]) + text);
      ps := WrittenValue(rt, vs[0], comma, ", " + (WriteValues(rt, vs[1..]) + text), [COMMA] + us);
      ThreeParts(WriteValue(rt, vs[0]), ", ", WriteValues(rt, vs[1..]), text);
    }
  }

  /** What is written is parsed back: every printable tree, with parentheses only where they are needed. */
  lemma {:induction false} WrittenIsParsed(rt: Runtime, n: FilterNode)
    requires Printable(rt, n)
    ensures Parse(rt, WriteOr(rt, n)) == Ok(n)
  {
    assert Cut([], "", [EOF]);
    var ps := WrittenOr(rt, n, [], "", [EOF]);
    JoinNothing(WriteOr(rt, n));
    assert Writes(WriteOr(rt, n), PrintDisj(rt, n));
    RoundTrip(rt, n);
  }

  // ---------------------------------------------------------------- the ten operators, from their texts

  lemma {:induction false} ConditionText(rt: Runtime, field: string, op: FilterOp, mid: string, v: Value)
    requires FieldPrintable(field) && IsKnownOp(op) && ValuePrintable(rt, v) && mid == " " + OpText(op) + " "
    ensures Parse(rt, field + mid + WriteValue(rt, v)) == Ok(Cond(field, op, v))
  {
    var n := Cond(field, op, v);
    assert Printable(rt, n);
    WrittenIsParsed(rt, n);
    assert WriteNot(rt, n) == WriteAtom(rt, n);
    assert WriteOr(rt, n) == WriteAnd(rt, n) == WriteNot(rt, n);
    FiveParts(field, " ", OpText(op), WriteValue(rt, v), "");
    Regroup(field, mid, WriteValue(rt, v));
    JoinNothing(WriteValue(rt, v));
    JoinNothing(WriteAtom(rt, n));
  }

  lemma {:induction false} EqualityTexts(rt: Runtime, field: string, v: Value)
    requires FieldPrintable(field) && ValuePrintable(rt, v)
    ensures Parse(rt, field + " == " + WriteValue(rt, v)) == Ok(Cond(field, OpEq, v))
    ensures Parse(rt, field + " != " + WriteValue(rt, v)) == Ok(Cond(field, OpNeq, v))
  {
    ConditionText(rt, field, OpEq, " == ", v);
    ConditionText(rt, field, OpNeq, " != ", v);
  }

  lemma {:induction false} OrderingTexts(rt: Runtime, field: string, v: Value)
    requires FieldPrintable(field) && ValuePrintable(rt, v)
    ensures Parse(rt, field + " < " + WriteValue(rt, v)) == Ok(Cond(field, OpLt, v))
    ensures Parse(rt, field + " > " + WriteValue(rt, v)) == Ok(Cond(field, OpGt, v))
    ensures Parse(rt, field + " <= " + WriteValue(rt, v)) == Ok(Cond(field, OpLte, v))
    ensures Parse(rt, field + " >= " + WriteValue(rt, v)) == Ok(Cond(field, OpGte, v))
  {
    ConditionText(rt, field, OpLt, " < ", v);
    ConditionText(rt, field, OpGt, " > ", v);
    ConditionText(rt, field, OpLte, " <= ", v);
    ConditionText(rt, field, OpGte, " >= ", v);
  }

  lemma {:induction false} ListTexts(rt: Runtime, field: string, v: Value)
    requires FieldPrintable(field) && ValuePrintable(rt, v)
    ensures Parse(rt, field + " IN " + WriteValue(rt, v)) == Ok(Cond(field, OpIn, v))
    ensures Parse(rt, field + " NOT_IN " + WriteValue(rt, v)) == Ok(Cond(field, OpNotIn, v))
  {
    ConditionText(rt, field, OpIn, " IN ", v);
    ConditionText(rt, field, OpNotIn, " NOT_IN ", v);
  }

  lemma {:induction false} ContainsText(rt: Runtime, field: string, v: Value)
    requires FieldPrintable(field) && ValuePrintable(rt, v)
    ensures Parse(rt, field + " CONTAINS " + WriteValue(rt, v)) == Ok(Cond(field, OpContains, v))
  {
    ConditionText(rt, field, OpContains, " CONTAINS ", v);
  }

  lemma {:induction false} NotContainsText(rt: Runtime, field: string, v: Value)
    requires FieldPrintable(field) && ValuePrintable(rt, v)
    ensures Parse(rt, field + " NOT_CONTAINS " + WriteValue(rt, v)) == Ok(Cond(field, OpNotContains, v))
  {
    ConditionText(rt, field, OpNotContains, " NOT_CONTAINS ", v);
  }

  /** The text parses, and its filter holds of the client. */
  predicate Selects(rt: Runtime, text: string, c: Client) {
    Parse(rt, text).Ok? && Evaluate(rt, Parse(rt, text).value, c) == Ok(true)
  }

  /** From text to meaning: the six comparison texts compare finite numbers as reals. */
  lemma {:induction false} ComparisonTextsMean(
      rt: Runtime, field: string, v: Value, c: Client, x: real, y: real)
    requires FieldPrintable(field) && ValuePrintable(rt, v) && GetField(c, field).Some?
    requires ToFloat(rt, GetField(c, field).value) == Some(Fin(x)) && ToFloat(rt, v) == Some(Fin(y))
    ensures Selects(rt, field + " == " + WriteValue(rt, v), c) <==> x == y
    ensures Selects(rt, field + " != " + WriteValue(rt, v), c) <==> x != y
    ensures Selects(rt, field + " < " + WriteValue(rt, v), c) <==> x < y
    ensures Selects(rt, field + " > " + WriteValue(rt, v), c) <==> x > y
    ensures Selects(rt, field + " <= " + WriteValue(rt, v), c) <==> x <= y
    ensures Selects(rt, field + " >= " + WriteValue(rt, v), c) <==> x >= y
  {
    EqualityTexts(rt, field, v);
    OrderingTexts(rt, field, v);
    NumbersAreOrdered(rt, field, v, c, Fin(x), Fin(y));
    EqualityDecides(rt, field, v, c);
  }

  /** The two texts for lists ask for an equal element among the items written. */
  lemma {:induction false} MembershipTextsMean(rt: Runtime, field: string, vs: seq<Value>, c: Client)
    requires FieldPrintable(field) && ValuePrintable(rt, List(vs)) && GetField(c, field).Some?
    ensures Selects(rt, field + " IN " + WriteValue(rt, List(vs)), c)
       <==> SomeSame(rt, GetField(c, field).value, vs)
    ensures Selects(rt, field + " NOT_IN " + WriteValue(rt, List(vs)), c)
       <==> !SomeSame(rt, GetField(c, field).value, vs)
  {
    ListTexts(rt, field, List(vs));
    InMeans(rt, field, List(vs), c);
  }

  /** The two texts for substrings ask whether the text written stands anywhere in the field's. */
  lemma {:induction false} SubstringTextsMean(rt: Runtime, field: string, x: string, y: string, c: Client)
    requires FieldPrintable(field) && ValuePrintable(rt, Str(y)) && GetField(c, field) == Some(Str(x))
    ensures Selects(rt, field + " CONTAINS " + WriteValue(rt, Str(y)), c) <==> Within(y, x)
    ensures Selects(rt, field + " NOT_CONTAINS " + WriteValue(rt, Str(y)), c) <==> !Within(y, x)
  {
    ContainsText(rt, field, Str(y));
    NotContainsText(rt, field, Str(y));
    ContainsMeans(rt, field, Str(y), c);
  }

  // ---------------------------------------------------------------- the head of a text

  lemma {:induction false} LexWord(w: string, t: Token, rest: string)
    requires Spells(w, t) && |w| > 0 && (rest != "" ==> !Fuses(w, rest[0]))
    ensures Lex(w + rest) == Prepend([t], Lex(rest))
  {
    ScanReadsLexeme(w, t, rest);
    assert (w + rest)[|w|..] == rest;
  }

  lemma {:induction false} LexBlank(rest: string)
    ensures Lex(" " + rest) == Lex(rest)
  {
    assert (" " + rest)[1..] == rest;
  }

  /** A word and a blank in front of any text. */
  lemma {:induction false} LexWordAndBlank(w: string, t: Token, rest: string)
    requires Spells(w, t) && |w| > 0
    ensures Lex(w + (" " + rest)) == Prepend([t], Lex(rest))
  {
    NeverFuses(w, t, ' ');
    LexWord(w, t, " " + rest);
    LexBlank(rest);
  }

  lemma {:induction false} LexFailsAlike(s: string)
    ensures Lex(s).Err? ==> Lex(s) == Err(InvalidFilter)
    decreases |s|
  {
    if s != "" {
      match ScanOne(s)
      case Blank => LexFailsAlike(s[1..]);
      case Lexeme(n, _) => LexFailsAlike(s[n..]);
      case Bad =>
    }
  }

  const OPERATORS := ["==", "!=", "<", ">", "<=", ">=", "IN", "NOT_IN", "CONTAINS", "NOT_CONTAINS"]

  lemma {:induction false} NoneOfTheTen(text: string)
    requires text !in OPERATORS
    ensures !IsKnownOp(ToOp(text))
  {
  }

  /** A token that is none of the ten operator texts after a field fails the parser, whatever follows it. */
  lemma {:induction false} ReadFailsAtOperator(rt: Runtime, ts: seq<Token>)
    requires Closed(ts) && |ts| > 1 && ts[0].typ == TIdent && (ts[1].typ != TOp || ts[1].val !in OPERATORS)
    ensures ReadDisj(rt, ts) == Fail(InvalidFilter)
  {
    if ts[1].typ == TOp {
      NoneOfTheTen(ts[1].val);
    }
    ClosedHead(ts);
    assert Tail(ts)[0] == ts[1];
    assert ReadPrimary(rt, ts) == Fail(InvalidFilter);
    assert ReadNeg(rt, ts) == Fail(InvalidFilter);
    assert ReadConj(rt, ts) == Fail(InvalidFilter);
  }

  /** After a field, an operator that is none of the ten makes the filter invalid, whatever comes after it. */
  lemma {:induction false} UnknownOperatorFails(rt: Runtime, field: string, w: string, t: Token, rest: string)
    requires FieldPrintable(field) && Spells(w, t) && |w| > 0 && t.typ != TEOF
    requires t.typ != TOp || t.val !in OPERATORS
    ensures Parse(rt, field + " " + w + " " + rest) == Err(InvalidFilter)
  {
    var s := field + " " + w + " " + rest;
    assert s == field + (" " + (w + (" " + rest)));
    assert Spells(field, Token(TIdent, field));
    LexWordAndBlank(field, Token(TIdent, field), w + (" " + rest));
    LexWordAndBlank(w, t, rest);
    LexFailsAlike(rest);
    if Lex(rest).Ok? {
      LexIsClosed(s);
      assert Lex(s).value == [Token(TIdent, field)] + ([t] + Lex(rest).value);
      ReadFailsAtOperator(rt, Lex(s).value);
    }
  }

  /** A single equals sign is no operator. */
  lemma {:induction false} SingleEqualsFails(rt: Runtime, field: string, rest: string)
    requires FieldPrintable(field)
    ensures Parse(rt, field + " = " + rest) == Err(InvalidFilter)
  {
    UnknownOperatorFails(rt, field, "=", Token(TOp, "="), rest);
    assert field + " " + "=" + " " + rest == field + " = " + rest;
  }

  /**
   * A filter that does not parse is invalid, or a syntax error for a number among its tokens that
   * does not parse; there is no third way to fail.
   */
  lemma {:induction false} ParseFailsAs(rt: Runtime, s: string)
    requires Parse(rt, s).Err?
    ensures || Parse(rt, s) == Err(InvalidFilter)
            || (Parse(rt, s) == Err(NumberSyntax) && Lex(s).Ok?
                && exists t :: t in Lex(s).value && t.typ == TNumber && LiteralValue(rt, t) == Err(NumberSyntax))
  {
    LexFailsAlike(s);
    if Lex(s).Ok? {
      LexIsClosed(s);
      DisjGoes(rt, Lex(s).value);
    }
  }

  /** A character that begins nothing. */
  predicate IsStray(c: char) {
    c !in LOWER && c !in UPPER && c !in DIGITS && c !in "_()[],=!<>-'\"" && !IsSpace(c)
  }

  /** A text that goes on with a stray character is invalid, and so is a minus that no digit follows. */
  lemma {:induction false} StrayCharacterFails(rt: Runtime, c: char, rest: string)
    requires IsStray(c) || (c == '-' && (rest == "" || rest[0] !in DIGITS))
    ensures Parse(rt, [c] + rest) == Err(InvalidFilter)
  {
    var s := [c] + rest;
    Alphabets(c);
    Letters(c);
    if rest != "" {
      assert s[1] == rest[0];
      Alphabets(rest[0]);
    }
    assert ScanOne(s) == Bad;
  }

  /** A quote that is never closed makes the filter invalid. */
  lemma {:induction false} OpenQuoteFails(rt: Runtime, quote: char, body: string)
    requires (quote == '\'' || quote == '"') && quote !in body
    ensures Parse(rt, [quote] + body) == Err(InvalidFilter)
  {
    var s := [quote] + body;
    assert s[1..] == body;
    assert forall j | 0 <= j < |body| :: body[j] in body;
    SpanIs(body, OtherThan(quote), |body|);
    assert ScanOne(s) == Bad;
  }

  // ---------------------------------------------------------------- literals, from their texts

  lemma {:induction false} ReadComparison(rt: Runtime, field: string, op: FilterOp, t: Token)
    requires IsKnownOp(op) && Proper(t) && t.typ in [TString, TNumber, TIdent]
    ensures var ts := [Token(TIdent, field)] + ([Token(TOp, OpText(op))] + ([t] + [EOF]));
            && Closed(ts)
            && (LiteralValue(rt, t).Ok? ==>
                  ReadDisj(rt, ts) == Read(Conj1(Neg1(Primary1(Compare(field, OpText(op), Literal(t))))), [EOF]))
            && (LiteralValue(rt, t).Err? ==> ReadDisj(rt, ts) == Fail(LiteralValue(rt, t).error))
  {
    var head := [Token(TIdent, field)] + ([Token(TOp, OpText(op))] + ([t] + [EOF]));
    assert head[..|head| - 1] == [Token(TIdent, field), Token(TOp, OpText(op)), t];
    assert Tail(head) == [Token(TOp, OpText(op))] + ([t] + [EOF]) && Tail(Tail(head)) == [t] + [EOF];
    assert Tail(Tail(Tail(head))) == [EOF];
    if LiteralValue(rt, t).Ok? {
      assert ReadPrimary(rt, head) == Read(Compare(field, OpText(op), Literal(t)), [EOF]);
      assert ReadNeg(rt, head) == Read(Primary1(Compare(field, OpText(op), Literal(t))), [EOF]);
      assert ReadConj(rt, head) == Read(Neg1(Primary1(Compare(field, OpText(op), Literal(t)))), [EOF]);
    } else {
      assert ReadPrimary(rt, head) == Fail(LiteralValue(rt, t).error);
      assert ReadNeg(rt, head) == Fail(LiteralValue(rt, t).error);
      assert ReadConj(rt, head) == Fail(LiteralValue(rt, t).error);
    }
  }

  lemma {:induction false} LexComparison(field: string, op: FilterOp, w: string, t: Token)
    requires FieldPrintable(field) && IsKnownOp(op) && Spells(w, t) && |w| > 0
    ensures Lex(field + (" " + (OpText(op) + (" " + w))))
         == Ok([Token(TIdent, field)] + ([Token(TOp, OpText(op))] + ([t] + [EOF])))
  {
    OperatorSpells(op);
    LexWordAndBlank(field, Token(TIdent, field), OpText(op) + (" " + w));
    LexWordAndBlank(OpText(op), Token(TOp, OpText(op)), w);
    LexWord(w, t, "");
    JoinNothing(w);
  }

  /** A comparison with a one-token operand, in any spelling: the operand's value, or its error. */
  lemma {:induction false} LiteralText(rt: Runtime, field: string, op: FilterOp, mid: string, w: string, t: Token)
    requires FieldPrintable(field) && IsKnownOp(op) && Spells(w, t) && |w| > 0 && mid == " " + OpText(op) + " "
    requires t.typ in [TString, TNumber, TIdent]
    ensures Parse(rt, field + mid + w)
         == match LiteralValue(rt, t) case Ok(v) => Ok(Cond(field, op, v)) case Err(e) => Err(e)
  {
    var s := field + (" " + (OpText(op) + (" " + w)));
    FiveParts(field, " ", OpText(op), w, "");
    Regroup(field, mid, w);
    JoinNothing(w);
    JoinNothing(s);
    LexComparison(field, op, w, t);
    ParseOfComparison(rt, s, field, op, t);
  }

  lemma {:induction false} ParseOfComparison(rt: Runtime, s: string, field: string, op: FilterOp, t: Token)
    requires IsKnownOp(op) && Proper(t) && t.typ in [TString, TNumber, TIdent]
    requires Lex(s) == Ok([Token(TIdent, field)] + ([Token(TOp, OpText(op))] + ([t] + [EOF])))
    ensures Parse(rt, s) == match LiteralValue(rt, t) case Ok(v) => Ok(Cond(field, op, v)) case Err(e) => Err(e)
  {
    ReadComparison(rt, field, op, t);
    if LiteralValue(rt, t).Ok? {
      ComparisonTree(rt, field, op, t);
      ParseOfTokens(rt, s, Conj1(Neg1(Primary1(Compare(field, OpText(op), Literal(t))))));
    }
  }

  lemma {:induction false} ParseOfTokens(rt: Runtime, s: string, d: Disj)
    requires Lex(s).Ok? && Lex(s) != Ok([EOF]) && Closed(Lex(s).value)
    requires ReadDisj(rt, Lex(s).value) == Read(d, [EOF]) && DisjLegal(rt, d)
    ensures Parse(rt, s) == Ok(DisjTree(rt, d))
  {
  }

  lemma {:induction false} ComparisonTree(rt: Runtime, field: string, op: FilterOp, t: Token)
    requires IsKnownOp(op) && LiteralValue(rt, t).Ok?
    ensures var d := Conj1(Neg1(Primary1(Compare(field, OpText(op), Literal(t)))));
            DisjLegal(rt, d) && DisjTree(rt, d) == Cond(field, op, LiteralValue(rt, t).value)
  {
    var p := Compare(field, OpText(op), Literal(t));
    assert OperandLegal(rt, Literal(t)) && PrimaryLegal(rt, p) && NegLegal(rt, Primary1(p));
    assert OperandValue(rt, Literal(t)) == LiteralValue(rt, t).value;
    assert ConjTree(rt, Neg1(Primary1(p))) == NegTree(rt, Primary1(p)) == PrimaryTree(rt, p);
  }

  /** Bare words are texts, unless they are TRUE or FALSE in any case. */
  lemma {:induction false} BareWords(rt: Runtime, field: string, w: string)
    requires FieldPrintable(field) && WordShape(w) && ToUpper(w) !in KEYWORDS
    ensures Parse(rt, field + " == " + w)
         == Ok(Cond(field, OpEq,
                    if ToUpper(w) == "TRUE" then Bool(true) else if ToUpper(w) == "FALSE" then Bool(false) else Str(w)))
  {
    var t := WordToken(w);
    LiteralText(rt, field, OpEq, " == ", w, t);
    if ToUpper(w) == "TRUE" || ToUpper(w) == "FALSE" {
      LowerBoolean(w);
    } else {
      assert w != "true" && w != "false" by {
        assert ToUpper("true") == "TRUE" && ToUpper("false") == "FALSE";
      }
    }
  }

  /** Text in quotes of a kind that it does not contain is that text. */
  lemma {:induction false} QuotedText(rt: Runtime, field: string, quote: char, body: string)
    requires FieldPrintable(field) && (quote == '\'' || quote == '"') && quote !in body
    ensures Parse(rt, field + " == " + ([quote] + body + [quote])) == Ok(Cond(field, OpEq, Str(body)))
  {
    var w := [quote] + body + [quote];
    assert Quoted(w, body);
    LiteralText(rt, field, OpEq, " == ", w, Token(TString, body));
  }

  /** Numbers with a point are floats, others integers of 64 bits; what does not parse is a syntax error. */
  lemma {:induction false} NumberTexts(rt: Runtime, field: string, w: string)
    requires FieldPrintable(field) && NumberShape(w)
    ensures var r := Parse(rt, field + " == " + w);
            if '.' in w then
              r == match rt.parseFloat(w) case Some(f) => Ok(Cond(field, OpEq, Flt(f))) case None => Err(NumberSyntax)
            else
              r == match ParseInt(w) case Some(i) => Ok(Cond(field, OpEq, Int(i))) case None => Err(NumberSyntax)
  {
    LiteralText(rt, field, OpEq, " == ", w, Token(TNumber, w));
  }

  // ---------------------------------------------------------------- labels, from the text

  lemma {:induction false} LabelField(name: string)
    requires forall i | 0 <= i < |name| :: IsWordChar(name[i])
    ensures FieldPrintable("labels." + name)
  {
    var field := "labels." + name;
    Alphabets('.');
    assert forall i | 7 <= i < |field| :: field[i] == name[i - 7];
    assert WordShape(field);
    assert ToUpper(field)[6] == '.';
    assert ToUpper(field) !in KEYWORDS;
    assert ToUpper(field) != "TRUE" && ToUpper(field) != "FALSE";
  }

  /** A filter on a label selects exactly the clients that carry it with that text. */
  lemma {:induction false} LabelText(rt: Runtime, name: string, body: string, c: Client)
    requires (forall i | 0 <= i < |name| :: IsWordChar(name[i]) && name[i] != '.') && '\'' !in body
    requires rt.parseFloat(body).None? && rt.sprint(Str(body)) == body
    requires name in c.labels ==> rt.sprint(Str(c.labels[name])) == c.labels[name]
    ensures Selects(rt, "labels." + name + " == " + (['\''] + body + ['\'']), c)
       <==> name in c.labels && c.labels[name] == body
  {
    var field := "labels." + name;
    LabelField(name);
    QuotedText(rt, field, '\'', body);
    LabelPath(c, name);
    if name in c.labels {
      TextsCompare(rt, field, c.labels[name], body, c);
    } else {
      UnknownNeverMatches(rt, field, OpEq, Str(body), c);
    }
  }
}
