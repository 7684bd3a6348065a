/**
 * Writing filter trees as text with precedence-driven parentheses, and the exact set of trees
 * that filter text can express.
 */
module FilterPrinter {
  import opened Wrappers
  import opened Chars
  import opened FilterSyntax
  import opened FilterLexer
  import opened FilterGrammar
  import opened FilterReader
  import opened FilterText

  // ---------------------------------------------------------------- integers as digits

  function DecimalText(n: nat): (ds: string)
    ensures |ds| > 0 && forall i | 0 <= i < |ds| :: IsDigit(ds[i])
    ensures DigitsValue(ds) == n
  {
    var last := '0' + (n % 10) as char;
    if n < 10 then
      assert DigitsValue([last][..0]) == 0;
      [last]
    else
      var ds := DecimalText(n / 10) + [last];
      assert ds[..|ds| - 1] == DecimalText(n / 10);
      ds
  }

  function IntText(i: int): (w: string)
    ensures NumberShape(w) && '.' !in w
    ensures IsInt64(i) ==> ParseInt(w) == Some(i)
  {
    if i >= 0 then
      var w := DecimalText(i);
      assert IsDigit(w[0]);
      assert forall j | 0 <= j < |w| :: IsDigit(w[j]);
      w
    else
      var ds := DecimalText(-i);
      var w := "-" + ds;
      assert w[1..] == ds && IsDigit(ds[0]) && w[1] == ds[0];
      assert forall j | 1 <= j < |w| :: w[j] == ds[j - 1];
      w
  }

  // ---------------------------------------------------------------- trees that text can express

  /** A string needs one kind of quote it does not contain; a float needs a text that parses to it. */
  ghost predicate ValuePrintable(rt: Runtime, v: Value) {
    match v
    case Str(s) => '\'' !in s || '"' !in s
    case Int(i) => IsInt64(i)
    case Bool(_) => true
    case Flt(f) => exists w :: NumberShape(w) && '.' in w && rt.parseFloat(w) == Some(f)
    case List(vs) => forall x | x in vs :: ValuePrintable(rt, x)
    case _ => false
  }

  /** A field must be read back as itself: a word that is neither a keyword nor a capitalised boolean. */
  predicate FieldPrintable(field: string) {
    WordShape(field) && WordToken(field) == Token(TIdent, field)
  }

  ghost predicate Printable(rt: Runtime, n: FilterNode) {
    && WellFormed(n)
    && match n.condition
       case Some(c) => FieldPrintable(c.field) && ValuePrintable(rt, c.value)
       case None => Printable(rt, n.left) && (n.logical.LogicNot? || Printable(rt, n.right))
  }

  // ---------------------------------------------------------------- printing

  ghost function PrintDisj(rt: Runtime, n: FilterNode): Disj
    requires Printable(rt, n)
    decreases n, 3
  {
    if n.condition.None? && n.logical.LogicOr? then OrElse(PrintDisj(rt, n.left), PrintConj(rt, n.right))
    else Conj1(PrintConj(rt, n))
  }

  ghost function PrintConj(rt: Runtime, n: FilterNode): Conj
    requires Printable(rt, n)
    decreases n, 2
  {
    if n.condition.None? && n.logical.LogicAnd? then AndAlso(PrintConj(rt, n.left), PrintNeg(rt, n.right))
    else Neg1(PrintNeg(rt, n))
  }

  ghost function PrintNeg(rt: Runtime, n: FilterNode): Neg
    requires Printable(rt, n)
    decreases n, 1
  {
    if n.condition.None? && n.logical.LogicNot? then Negate(PrintNeg(rt, n.left))
    else Primary1(PrintPrimary(rt, n))
  }

  /** Parentheses appear only around an AND or an OR that a NOT or an AND applies to. */
  ghost function PrintPrimary(rt: Runtime, n: FilterNode): Primary
    requires Printable(rt, n) && (n.condition.None? ==> !n.logical.LogicNot?)
    decreases n, 0
  {
    match n.condition
    case Some(c) => Compare(c.field, OpText(c.op), PrintValue(rt, c.value))
    case None =>
      if n.logical.LogicAnd? then Paren(Conj1(AndAlso(PrintConj(rt, n.left), PrintNeg(rt, n.right))))
      else Paren(OrElse(PrintDisj(rt, n.left), PrintConj(rt, n.right)))
  }

  /** Some number text that parses to the float. */
  ghost function FloatText(rt: Runtime, f: Float): (w: string)
    requires ValuePrintable(rt, Flt(f))
    ensures NumberShape(w) && '.' in w && rt.parseFloat(w) == Some(f)
  {
    var w :| NumberShape(w) && '.' in w && rt.parseFloat(w) == Some(f);
    w
  }

  ghost function PrintValue(rt: Runtime, v: Value): Operand
    requires ValuePrintable(rt, v)
    decreases v
  {
    match v
    case Str(s) => Literal(Token(TString, s))
    case Int(i) => Literal(Token(TNumber, IntText(i)))
    case Bool(b) => Literal(Token(TIdent, if b then "true" else "false"))
    case Flt(f) => Literal(Token(TNumber, FloatText(rt, f)))
    case List(vs) => if vs == [] then EmptyList else Bracketed(PrintValues(rt, vs))
  }

  ghost function PrintValues(rt: Runtime, vs: seq<Value>): Items
    requires vs != [] && forall x | x in vs :: ValuePrintable(rt, x)
    decreases vs
  {
    if |vs| == 1 then Last(PrintValue(rt, vs[0]))
    else More(PrintValue(rt, vs[0]), PrintValues(rt, vs[1..]))
  }

  // ---------------------------------------------------------------- spelling tokens

  ghost predicate CanSpell(t: Token) {
    t == EOF || exists w :: Spells(w, t)
  }

  ghost predicate AllSpelled(ts: seq<Token>) {
    forall i | 0 <= i < |ts| :: CanSpell(ts[i])
  }

  lemma {:induction false} SpelledCons(t: Token, k: seq<Token>)
    ensures AllSpelled([t] + k) <==> CanSpell(t) && AllSpelled(k)
  {
    var ts := [t] + k;
    if AllSpelled(ts) {
      assert CanSpell(ts[0]);
      forall i | 0 <= i < |k| ensures CanSpell(k[i]) {
        assert CanSpell(ts[i + 1]);
      }
    }
  }

  lemma {:induction false} PunctuationSpelled()
    ensures CanSpell(LPAREN) && CanSpell(RPAREN) && CanSpell(LBRACKET) && CanSpell(RBRACKET) && CanSpell(COMMA)
    ensures CanSpell(OR) && CanSpell(AND) && CanSpell(NOT)
  {
    assert Spells("(", LPAREN) && Spells(")", RPAREN) && Spells("[", LBRACKET) && Spells("]", RBRACKET);
    assert Spells(",", COMMA);
    KeywordSpelled("OR");
    KeywordSpelled("AND");
    KeywordSpelled("NOT");
  }

  lemma {:induction false} KeywordSpelled(k: string)
    requires k in KEYWORDS
    ensures CanSpell(Token(TOp, k))
  {
    assert ToUpper(k) == k;
    assert WordShape(k);
    assert Spells(k, Token(TOp, k));
  }

  lemma {:induction false} OpSpelled(op: FilterOp)
    requires IsKnownOp(op)
    ensures CanSpell(Token(TOp, OpText(op)))
  {
    var w := OpText(op);
    if op.OpIn? || op.OpNotIn? || op.OpContains? || op.OpNotContains? {
      KeywordSpelled(w);
    } else {
      assert Spells(w, Token(TOp, w));
    }
  }

  lemma {:induction false} StringSpelled(s: string)
    ensures CanSpell(Token(TString, s)) <==> '\'' !in s || '"' !in s
  {
    var t := Token(TString, s);
    if '\'' !in s {
      assert Quoted("'" + s + "'", s);
      assert Spells("'" + s + "'", t);
    } else if '"' !in s {
      assert Quoted("\"" + s + "\"", s);
      assert Spells("\"" + s + "\"", t);
    }
  }

  lemma {:induction false} BooleanSpelled(w: string)
    requires w == "true" || w == "false"
    ensures CanSpell(Token(TIdent, w))
  {
    assert ToUpper(w) == if w == "true" then "TRUE" else "FALSE";
    assert ToLower(w) == w;
    assert Spells(w, Token(TIdent, w));
  }

  lemma {:induction false} LowerBoolean(w: string)
    requires ToUpper(w) == "TRUE" || ToUpper(w) == "FALSE"
    ensures ToLower(w) == if ToUpper(w) == "TRUE" then "true" else "false"
  {
    var u := ToUpper(w);
    assert forall i | 0 <= i < |w| :: 'A' <= u[i] <= 'Z' && (w[i] == u[i] || w[i] == u[i] - 'A' + 'a');
    assert forall i | 0 <= i < |w| :: ToLower(w)[i] == u[i] - 'A' + 'a';
  }

  /** The identifiers some text spells are exactly the printable fields. */
  lemma {:induction false} FieldSpelled(field: string)
    ensures CanSpell(Token(TIdent, field)) <==> FieldPrintable(field)
  {
    if FieldPrintable(field) {
      assert Spells(field, Token(TIdent, field));
    }
    if CanSpell(Token(TIdent, field)) {
      var w :| Spells(w, Token(TIdent, field));
      if ToUpper(w) == "TRUE" || ToUpper(w) == "FALSE" {
        LowerBoolean(w);
        assert ToUpper(field) == ToUpper(w);
        assert ToLower(field) == field;
      }
    }
  }

  // ---------------------------------------------------------------- printed trees are read back

  lemma {:induction false} PrintedDisj(rt: Runtime, n: FilterNode, k: seq<Token>)
    requires Printable(rt, n) && AllSpelled(k)
    ensures var d := PrintDisj(rt, n); DisjLegal(rt, d) && DisjTree(rt, d) == n && AllSpelled(DisjYield(d, k))
    decreases n, 3
  {
    PunctuationSpelled();
    if n.condition.None? && n.logical.LogicOr? {
      PrintedConj(rt, n.right, k);
      SpelledCons(OR, ConjYield(PrintConj(rt, n.right), k));
      PrintedDisj(rt, n.left, [OR] + ConjYield(PrintConj(rt, n.right), k));
    } else {
      PrintedConj(rt, n, k);
    }
  }

  lemma {:induction false} PrintedConj(rt: Runtime, n: FilterNode, k: seq<Token>)
    requires Printable(rt, n) && AllSpelled(k)
    ensures var c := PrintConj(rt, n); ConjLegal(rt, c) && ConjTree(rt, c) == n && AllSpelled(ConjYield(c, k))
    decreases n, 2
  {
    PunctuationSpelled();
    if n.condition.None? && n.logical.LogicAnd? {
      PrintedNeg(rt, n.right, k);
      SpelledCons(AND, NegYield(PrintNeg(rt, n.right), k));
      PrintedConj(rt, n.left, [AND] + NegYield(PrintNeg(rt, n.right), k));
    } else {
      PrintedNeg(rt, n, k);
    }
  }

  lemma {:induction false} PrintedNeg(rt: Runtime, n: FilterNode, k: seq<Token>)
    requires Printable(rt, n) && AllSpelled(k)
    ensures var m := PrintNeg(rt, n); NegLegal(rt, m) && NegTree(rt, m) == n && AllSpelled(NegYield(m, k))
    decreases n, 1
  {
    PunctuationSpelled();
    if n.condition.None? && n.logical.LogicNot? {
      PrintedNeg(rt, n.left, k);
      SpelledCons(NOT, NegYield(PrintNeg(rt, n.left), k));
    } else {
      PrintedPrimary(rt, n, k);
    }
  }

  lemma {:induction false} PrintedPrimary(rt: Runtime, n: FilterNode, k: seq<Token>)
    requires Printable(rt, n) && (n.condition.None? ==> !n.logical.LogicNot?) && AllSpelled(k)
    ensures var p := PrintPrimary(rt, n);
            PrimaryLegal(rt, p) && PrimaryTree(rt, p) == n && AllSpelled(PrimaryYield(p, k))
    decreases n, 0
  {
    PunctuationSpelled();
    if n.condition.Some? {
      var c := n.condition.value;
      PrintedValue(rt, c.value, k);
      var v := OperandYield(PrintValue(rt, c.value), k);
      var op := Token(TOp, OpText(c.op));
      OpSpelled(c.op);
      FieldSpelled(c.field);
      SpelledCons(op, v);
      SpelledCons(Token(TIdent, c.field), [op] + v);
    } else if n.logical.LogicAnd? {
      var close := [RPAREN] + k;
      SpelledCons(RPAREN, k);
      PrintedNeg(rt, n.right, close);
      var right := NegYield(PrintNeg(rt, n.right), close);
      SpelledCons(AND, right);
      PrintedConj(rt, n.left, [AND] + right);
      SpelledCons(LPAREN, ConjYield(PrintConj(rt, n.left), [AND] + right));
      var c := AndAlso(PrintConj(rt, n.left), PrintNeg(rt, n.right));
      assert ConjTree(rt, c) == n;
      assert DisjYield(Conj1(c), close) == ConjYield(c, close);
    } else {
      var close := [RPAREN] + k;
      SpelledCons(RPAREN, k);
      PrintedConj(rt, n.right, close);
      var right := ConjYield(PrintConj(rt, n.right), close);
      SpelledCons(OR, right);
      PrintedDisj(rt, n.left, [OR] + right);
      SpelledCons(LPAREN, DisjYield(PrintDisj(rt, n.left), [OR] + right));
    }
  }

  lemma {:induction false} PrintedValue(rt: Runtime, v: Value, k: seq<Token>)
    requires ValuePrintable(rt, v) && AllSpelled(k)
    ensures var o := PrintValue(rt, v);
            OperandLegal(rt, o) && OperandValue(rt, o) == v && AllSpelled(OperandYield(o, k))
    decreases v
  {
    PunctuationSpelled();
    match v
    case Str(s) =>
      StringSpelled(s);
      SpelledCons(Token(TString, s), k);
    case Int(i) =>
      var t := Token(TNumber, IntText(i));
      assert Spells(t.val, t);
      SpelledCons(t, k);
    case Bool(b) =>
      BooleanSpelled(if b then "true" else "false");
      SpelledCons(PrintValue(rt, v).tok, k);
    case Flt(f) =>
      var t := PrintValue(rt, v).tok;
      assert Spells(t.val, t);
      SpelledCons(t, k);
    case List(vs) =>
      SpelledCons(RBRACKET, k);
      if vs == [] {
        SpelledCons(LBRACKET, [RBRACKET] + k);
      } else {
        PrintedValues(rt, vs, [RBRACKET] + k);
        SpelledCons(LBRACKET, ItemsYield(PrintValues(rt, vs), [RBRACKET] + k));
      }
  }

  lemma {:induction false} PrintedValues(rt: Runtime, vs: seq<Value>, k: seq<Token>)
    requires vs != [] && (forall x | x in vs :: ValuePrintable(rt, x)) && AllSpelled(k)
    ensures var xs := PrintValues(rt, vs);
            ItemsLegal(rt, xs) && ItemsValues(rt, xs) == vs && AllSpelled(ItemsYield(xs, k))
    decreases vs
  {
    PunctuationSpelled();
    if |vs| == 1 {
      PrintedValue(rt, vs[0], k);
    } else {
      PrintedValues(rt, vs[1..], k);
      var rest := ItemsYield(PrintValues(rt, vs[1..]), k);
      SpelledCons(COMMA, rest);
      PrintedValue(rt, vs[0], [COMMA] + rest);
    }
  }

  // ---------------------------------------------------------------- derived trees are printable

  lemma {:induction false} DerivedDisj(rt: Runtime, d: Disj, k: seq<Token>)
    requires DisjLegal(rt, d) && AllSpelled(DisjYield(d, k))
    ensures Printable(rt, DisjTree(rt, d)) && AllSpelled(k)
    decreases d
  {
    match d
    case Conj1(c) =>
      DerivedConj(rt, c, k);
    case OrElse(l, r) =>
      DerivedDisj(rt, l, [OR] + ConjYield(r, k));
      SpelledCons(OR, ConjYield(r, k));
      DerivedConj(rt, r, k);
  }

  lemma {:induction false} DerivedConj(rt: Runtime, c: Conj, k: seq<Token>)
    requires ConjLegal(rt, c) && AllSpelled(ConjYield(c, k))
    ensures Printable(rt, ConjTree(rt, c)) && AllSpelled(k)
    decreases c
  {
    match c
    case Neg1(n) =>
      DerivedNeg(rt, n, k);
    case AndAlso(l, r) =>
      DerivedConj(rt, l, [AND] + NegYield(r, k));
      SpelledCons(AND, NegYield(r, k));
      DerivedNeg(rt, r, k);
  }

  lemma {:induction false} DerivedNeg(rt: Runtime, n: Neg, k: seq<Token>)
    requires NegLegal(rt, n) && AllSpelled(NegYield(n, k))
    ensures Printable(rt, NegTree(rt, n)) && AllSpelled(k)
    decreases n
  {
    match n
    case Negate(m) =>
      SpelledCons(NOT, NegYield(m, k));
      DerivedNeg(rt, m, k);
    case Primary1(p) =>
      DerivedPrimary(rt, p, k);
  }

  lemma {:induction false} DerivedPrimary(rt: Runtime, p: Primary, k: seq<Token>)
    requires PrimaryLegal(rt, p) && AllSpelled(PrimaryYield(p, k))
    ensures Printable(rt, PrimaryTree(rt, p)) && AllSpelled(k)
    decreases p
  {
    match p
    case Paren(d) =>
      SpelledCons(LPAREN, DisjYield(d, [RPAREN] + k));
      DerivedDisj(rt, d, [RPAREN] + k);
      SpelledCons(RPAREN, k);
    case Compare(field, op, v) =>
      SpelledCons(Token(TIdent, field), [Token(TOp, op)] + OperandYield(v, k));
      SpelledCons(Token(TOp, op), OperandYield(v, k));
      FieldSpelled(field);
      DerivedOperand(rt, v, k);
  }

  lemma {:induction false} DerivedOperand(rt: Runtime, v: Operand, k: seq<Token>)
    requires OperandLegal(rt, v) && AllSpelled(OperandYield(v, k))
    ensures ValuePrintable(rt, OperandValue(rt, v)) && AllSpelled(k)
    decreases v
  {
    match v
    case Literal(t) =>
      SpelledCons(t, k);
      if t.typ == TString {
        StringSpelled(t.val);
      } else if t.typ == TIdent {
        FieldSpelled(t.val);
      }
    case EmptyList =>
      SpelledCons(LBRACKET, [RBRACKET] + k);
      SpelledCons(RBRACKET, k);
    case Bracketed(items) =>
      SpelledCons(LBRACKET, ItemsYield(items, [RBRACKET] + k));
      DerivedItems(rt, items, [RBRACKET] + k);
      SpelledCons(RBRACKET, k);
  }

  lemma {:induction false} DerivedItems(rt: Runtime, xs: Items, k: seq<Token>)
    requires ItemsLegal(rt, xs) && AllSpelled(ItemsYield(xs, k))
    ensures (forall x | x in ItemsValues(rt, xs) :: ValuePrintable(rt, x)) && AllSpelled(k)
    decreases xs
  {
    match xs
    case Last(v) =>
      DerivedOperand(rt, v, k);
    case More(v, rest) =>
      DerivedOperand(rt, v, [COMMA] + ItemsYield(rest, k));
      SpelledCons(COMMA, ItemsYield(rest, k));
      DerivedItems(rt, rest, k);
  }

  // ---------------------------------------------------------------- the round trip

  lemma {:induction false} SpelledTail(ts: seq<Token>)
    requires AllSpelled(ts) && EOF !in ts && ts != []
    ensures AllSpelled(ts[1..]) && EOF !in ts[1..]
    ensures exists w :: |w| > 0 && Spells(w, ts[0])
  {
    assert CanSpell(ts[0]) && ts[0] != EOF;
    assert forall i | 0 <= i < |ts[1..]| :: ts[1..][i] == ts[i + 1];
    var w :| Spells(w, ts[0]);
    assert |w| > 0;
  }

  /** One spelling of every token, each followed by a blank. */
  lemma {:induction false} SpreadOut(ts: seq<Token>) returns (ps: seq<Piece>)
    requires AllSpelled(ts) && EOF !in ts
    ensures Good(ps) && Tokens(ps) == ts
  {
    if ts == [] {
      ps := [];
    } else {
      SpelledTail(ts);
      var rest := SpreadOut(ts[1..]);
      ps := WordAndBlank(ts[0], rest);
    }
  }

  lemma {:induction false} WordAndBlank(t: Token, rest: seq<Piece>) returns (ps: seq<Piece>)
    requires Good(rest) && exists w :: |w| > 0 && Spells(w, t)
    ensures Good(ps) && Tokens(ps) == [t] + Tokens(rest)
  {
    var w :| |w| > 0 && Spells(w, t);
    GapInFront(' ', rest);
    WordInFront(w, t, [Gap(' ')] + rest);
    ps := [Word(w, t)] + ([Gap(' ')] + rest);
  }

  /**
   * Round trip: print any printable tree, cut the printed tokens apart with any white space
   * and any choice of quotes, and the parser gives back that tree. At least one such text exists.
   */
  lemma {:induction false} RoundTrip(rt: Runtime, n: FilterNode)
    requires Printable(rt, n)
    ensures forall s | Writes(s, PrintDisj(rt, n)) :: Parse(rt, s) == Ok(n)
    ensures exists s :: Writes(s, PrintDisj(rt, n))
  {
    var d := PrintDisj(rt, n);
    assert AllSpelled([EOF]);
    PrintedDisj(rt, n, [EOF]);
    forall s | Writes(s, d) ensures Parse(rt, s) == Ok(n) {
      WrittenParses(rt, s, d);
    }
    CanBeWritten(rt, d);
  }

  lemma {:induction false} CanBeWritten(rt: Runtime, d: Disj)
    requires DisjLegal(rt, d) && AllSpelled(DisjYield(d, [EOF]))
    ensures exists s :: Writes(s, d)
  {
    var ts := DisjYield(d, [EOF]);
    DisjReadBack(rt, d, [EOF]);
    YieldEnds(ts);
    var words := ts[..|ts| - 1];
    var ps := SpreadOut(words);
    assert ts == words + [EOF];
    assert Writes(Text(ps), d);
  }

  lemma {:induction false} YieldEnds(ts: seq<Token>)
    requires Closed(ts) && AllSpelled(ts)
    ensures var words := ts[..|ts| - 1]; AllSpelled(words) && EOF !in words
  {
    var words := ts[..|ts| - 1];
    forall i | 0 <= i < |words| ensures CanSpell(words[i]) && words[i] != EOF {
      assert CanSpell(ts[i]);
    }
  }

  /** A tree is the meaning of some text exactly when it is nil or printable. */
  lemma {:induction false} ExpressibleExactly(rt: Runtime, n: FilterNode)
    ensures (exists s :: Parse(rt, s) == Ok(n)) <==> n == Nil || Printable(rt, n)
  {
    if n == Nil {
      assert Parse(rt, "") == Ok(Nil);
    } else if Printable(rt, n) {
      RoundTrip(rt, n);
    }
    forall s | Parse(rt, s) == Ok(n) && n != Nil
      ensures Printable(rt, n)
    {
      var d := ParsedDerivation(rt, s);
      var ps :| Good(ps) && Text(ps) == s && Tokens(ps) + [EOF] == DisjYield(d, [EOF]);
      WordsAreNotEOF(ps);
      var ts := Tokens(ps) + [EOF];
      forall i | 0 <= i < |ts| ensures CanSpell(ts[i]) {
        if i < |ts| - 1 {
          assert ts[i] in Tokens(ps);
        }
      }
      DerivedDisj(rt, d, [EOF]);
    }
  }
}
