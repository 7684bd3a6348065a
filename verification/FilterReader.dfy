/**
 * The reader of token lists: which derivation, if any, stands at the head of a list.
 *
 * It finds exactly the derivations of FilterGrammar, and at most one for any input. The
 * parser class of FilterParser is proved against it.
 */
module FilterReader {
  import opened Wrappers
  import opened FilterSyntax
  import opened FilterGrammar

  datatype Reading<+T> = Read(what: T, rest: seq<Token>) | Fail(error: FilterError)

  /** Punctuation and end-of-input tokens carry the one text their type has. */
  predicate Proper(t: Token) {
    match t.typ
    case TLParen => t == LPAREN
    case TRParen => t == RPAREN
    case TLBracket => t == LBRACKET
    case TRBracket => t == RBRACKET
    case TComma => t == COMMA
    case TEOF => t == EOF
    case _ => true
  }

  predicate Inner(ts: seq<Token>) {
    forall i | 0 <= i < |ts| :: ts[i].typ != TEOF && Proper(ts[i])
  }

  /** Proper tokens closed by exactly one end-of-input token. */
  predicate Closed(ts: seq<Token>) {
    |ts| > 0 && ts[|ts| - 1] == EOF && Inner(ts[..|ts| - 1])
  }

  lemma {:induction false} ClosedTail(ts: seq<Token>, n: nat)
    requires Closed(ts) && n < |ts|
    ensures Closed(ts[n..])
  {
    var t := ts[n..];
    var inner, inner' := ts[..|ts| - 1], t[..|t| - 1];
    forall i | 0 <= i < |inner'|
      ensures inner'[i].typ != TEOF && Proper(inner'[i])
    {
      assert inner'[i] == inner[i + n];
    }
  }

  /** A token that is not the closing one has a successor. */
  lemma {:induction false} ClosedHead(ts: seq<Token>)
    requires Closed(ts)
    ensures Proper(ts[0])
    ensures ts[0].typ != TEOF ==> |ts| > 1 && Closed(ts[1..])
    ensures ts[0].typ == TEOF ==> ts == [EOF]
  {
    if |ts| > 1 {
      assert ts[..|ts| - 1][0] == ts[0];
      ClosedTail(ts, 1);
    }
  }

  function Tail(ts: seq<Token>): (r: seq<Token>)
    requires Closed(ts) && ts[0].typ != TEOF
    ensures Closed(r) && |r| == |ts| - 1
    ensures ts == [ts[0]] + r
  {
    ClosedHead(ts);
    ts[1..]
  }

  function ReadDisj(rt: Runtime, ts: seq<Token>): (r: Reading<Disj>)
    requires Closed(ts)
    ensures r.Read? ==> Closed(r.rest) && |r.rest| < |ts|
    decreases |ts|, 6
  {
    match ReadConj(rt, ts)
    case Fail(e) => Fail(e)
    case Read(c, rest) => ReadMoreConj(rt, Conj1(c), rest)
  }

  /** The OR loop: extend the disjunction l read so far. */
  function ReadMoreConj(rt: Runtime, l: Disj, ts: seq<Token>): (r: Reading<Disj>)
    requires Closed(ts)
    ensures r.Read? ==> Closed(r.rest) && |r.rest| <= |ts|
    decreases |ts|, 5
  {
    if ts[0] != OR then Read(l, ts)
    else
      match ReadConj(rt, Tail(ts))
      case Fail(e) => Fail(e)
      case Read(c, rest) => ReadMoreConj(rt, OrElse(l, c), rest)
  }

  function ReadConj(rt: Runtime, ts: seq<Token>): (r: Reading<Conj>)
    requires Closed(ts)
    ensures r.Read? ==> Closed(r.rest) && |r.rest| < |ts|
    decreases |ts|, 4
  {
    match ReadNeg(rt, ts)
    case Fail(e) => Fail(e)
    case Read(n, rest) => ReadMoreNeg(rt, Neg1(n), rest)
  }

  /** The AND loop: extend the conjunction l read so far. */
  function ReadMoreNeg(rt: Runtime, l: Conj, ts: seq<Token>): (r: Reading<Conj>)
    requires Closed(ts)
    ensures r.Read? ==> Closed(r.rest) && |r.rest| <= |ts|
    decreases |ts|, 3
  {
    if ts[0] != AND then Read(l, ts)
    else
      match ReadNeg(rt, Tail(ts))
      case Fail(e) => Fail(e)
      case Read(n, rest) => ReadMoreNeg(rt, AndAlso(l, n), rest)
  }

  function ReadNeg(rt: Runtime, ts: seq<Token>): (r: Reading<Neg>)
    requires Closed(ts)
    ensures r.Read? ==> Closed(r.rest) && |r.rest| < |ts|
    decreases |ts|, 2
  {
    if ts[0] == NOT then
      match ReadNeg(rt, Tail(ts))
      case Fail(e) => Fail(e)
      case Read(n, rest) => Read(Negate(n), rest)
    else
      match ReadPrimary(rt, ts)
      case Fail(e) => Fail(e)
      case Read(p, rest) => Read(Primary1(p), rest)
  }

  function ReadPrimary(rt: Runtime, ts: seq<Token>): (r: Reading<Primary>)
    requires Closed(ts)
    ensures r.Read? ==> Closed(r.rest) && |r.rest| < |ts|
    decreases |ts|, 1
  {
    if ts[0].typ == TLParen then
      match ReadDisj(rt, Tail(ts))
      case Fail(e) => Fail(e)
      case Read(d, rest) => if rest[0].typ != TRParen then Fail(InvalidFilter) else Read(Paren(d), Tail(rest))
    else if ts[0].typ != TIdent then Fail(InvalidFilter)
    else
      var us := Tail(ts);
      if us[0].typ != TOp || !IsKnownOp(ToOp(us[0].val)) then Fail(InvalidFilter)
      else
        match ReadOperand(rt, Tail(us))
        case Fail(e) => Fail(e)
        case Read(v, rest) => Read(Compare(ts[0].val, us[0].val, v), rest)
  }

  function ReadOperand(rt: Runtime, ts: seq<Token>): (r: Reading<Operand>)
    requires Closed(ts)
    ensures r.Read? ==> Closed(r.rest) && |r.rest| < |ts|
    decreases |ts|, 0
  {
    if ts[0].typ != TLBracket then
      match LiteralValue(rt, ts[0])
      case Err(e) => Fail(e)
      case Ok(_) => Read(Literal(ts[0]), Tail(ts))
    else if Tail(ts)[0].typ == TRBracket then Read(EmptyList, Tail(Tail(ts)))
    else
      match ReadItems(rt, Tail(ts))
      case Fail(e) => Fail(e)
      case Read(xs, rest) => Read(Bracketed(xs), rest)
  }

  /** The list loop, from the first item through the closing bracket. */
  function ReadItems(rt: Runtime, ts: seq<Token>): (r: Reading<Items>)
    requires Closed(ts)
    ensures r.Read? ==> Closed(r.rest) && |r.rest| < |ts|
    decreases |ts|, 1
  {
    match ReadOperand(rt, ts)
    case Fail(e) => Fail(e)
    case Read(v, rest) =>
      if rest[0].typ == TComma then
        match ReadItems(rt, Tail(rest))
        case Fail(e) => Fail(e)
        case Read(xs, end) => Read(More(v, xs), end)
      else if rest[0].typ == TRBracket then Read(Last(v), Tail(rest))
      else Fail(InvalidFilter)
  }

  // ---------------------------------------------------------------- what is read is derived

  lemma {:induction false} DisjReadIsDerived(rt: Runtime, ts: seq<Token>)
    requires Closed(ts) && ReadDisj(rt, ts).Read?
    ensures var Read(d, rest) := ReadDisj(rt, ts); DisjLegal(rt, d) && ts == DisjYield(d, rest)
    decreases |ts|, 6
  {
    ConjReadIsDerived(rt, ts);
    var Read(c, rest) := ReadConj(rt, ts);
    MoreConjReadIsDerived(rt, Conj1(c), rest);
  }

  lemma {:induction false} MoreConjReadIsDerived(rt: Runtime, l: Disj, ts: seq<Token>)
    requires Closed(ts) && DisjLegal(rt, l) && ReadMoreConj(rt, l, ts).Read?
    ensures var Read(d, rest) := ReadMoreConj(rt, l, ts);
            DisjLegal(rt, d) && DisjYield(l, ts) == DisjYield(d, rest)
    decreases |ts|, 5
  {
    if ts[0] == OR {
      ConjReadIsDerived(rt, Tail(ts));
      var Read(c, rest) := ReadConj(rt, Tail(ts));
      MoreConjReadIsDerived(rt, OrElse(l, c), rest);
    }
  }

  lemma {:induction false} ConjReadIsDerived(rt: Runtime, ts: seq<Token>)
    requires Closed(ts) && ReadConj(rt, ts).Read?
    ensures var Read(c, rest) := ReadConj(rt, ts); ConjLegal(rt, c) && ts == ConjYield(c, rest)
    decreases |ts|, 4
  {
    NegReadIsDerived(rt, ts);
    var Read(n, rest) := ReadNeg(rt, ts);
    MoreNegReadIsDerived(rt, Neg1(n), rest);
  }

  lemma {:induction false} MoreNegReadIsDerived(rt: Runtime, l: Conj, ts: seq<Token>)
    requires Closed(ts) && ConjLegal(rt, l) && ReadMoreNeg(rt, l, ts).Read?
    ensures var Read(c, rest) := ReadMoreNeg(rt, l, ts);
            ConjLegal(rt, c) && ConjYield(l, ts) == ConjYield(c, rest)
    decreases |ts|, 3
  {
    if ts[0] == AND {
      NegReadIsDerived(rt, Tail(ts));
      var Read(n, rest) := ReadNeg(rt, Tail(ts));
      MoreNegReadIsDerived(rt, AndAlso(l, n), rest);
    }
  }

  lemma {:induction false} NegReadIsDerived(rt: Runtime, ts: seq<Token>)
    requires Closed(ts) && ReadNeg(rt, ts).Read?
    ensures var Read(n, rest) := ReadNeg(rt, ts); NegLegal(rt, n) && ts == NegYield(n, rest)
    decreases |ts|, 2
  {
    if ts[0] == NOT {
      NegReadIsDerived(rt, Tail(ts));
    } else {
      PrimaryReadIsDerived(rt, ts);
    }
  }

  lemma {:induction false} PrimaryReadIsDerived(rt: Runtime, ts: seq<Token>)
    requires Closed(ts) && ReadPrimary(rt, ts).Read?
    ensures var Read(p, rest) := ReadPrimary(rt, ts); PrimaryLegal(rt, p) && ts == PrimaryYield(p, rest)
    decreases |ts|, 1
  {
    ClosedHead(ts);
    if ts[0].typ == TLParen {
      DisjReadIsDerived(rt, Tail(ts));
      ClosedHead(ReadDisj(rt, Tail(ts)).rest);
    } else {
      OperandReadIsDerived(rt, Tail(Tail(ts)));
    }
  }

  lemma {:induction false} OperandReadIsDerived(rt: Runtime, ts: seq<Token>)
    requires Closed(ts) && ReadOperand(rt, ts).Read?
    ensures var Read(v, rest) := ReadOperand(rt, ts); OperandLegal(rt, v) && ts == OperandYield(v, rest)
    decreases |ts|, 0
  {
    ClosedHead(ts);
    if ts[0].typ == TLBracket {
      ClosedHead(Tail(ts));
      if Tail(ts)[0].typ != TRBracket {
        ItemsReadIsDerived(rt, Tail(ts));
      }
    }
  }

  lemma {:induction false} ItemsReadIsDerived(rt: Runtime, ts: seq<Token>)
    requires Closed(ts) && ReadItems(rt, ts).Read?
    ensures var Read(xs, rest) := ReadItems(rt, ts);
            ItemsLegal(rt, xs) && ts == ItemsYield(xs, [RBRACKET] + rest)
    decreases |ts|, 1
  {
    OperandReadIsDerived(rt, ts);
    var rest := ReadOperand(rt, ts).rest;
    ClosedHead(rest);
    if rest[0].typ == TComma {
      ItemsReadIsDerived(rt, Tail(rest));
    }
  }

  // ---------------------------------------------------------------- what is derived is read

  lemma {:induction false} ClosedCons(t: Token, ts: seq<Token>)
    requires Closed(ts) && t.typ != TEOF && Proper(t)
    ensures Closed([t] + ts) && ([t] + ts)[0] == t && Tail([t] + ts) == ts
  {
    var us := [t] + ts;
    var inner, inner' := ts[..|ts| - 1], us[..|us| - 1];
    forall i | 0 <= i < |inner'|
      ensures inner'[i].typ != TEOF && Proper(inner'[i])
    {
      assert i > 0 ==> inner'[i] == inner[i - 1];
    }
    assert us[1..] == ts;
  }

  /**
   * Given the tokens of a disjunction the reader reaches the OR loop with that very derivation,
   * whatever follows (unless an AND would extend its last conjunction).
   */
  lemma {:induction false} DisjReadBack(rt: Runtime, d: Disj, k: seq<Token>)
    requires DisjLegal(rt, d) && Closed(k) && k[0] != AND
    ensures Closed(DisjYield(d, k))
    ensures ReadDisj(rt, DisjYield(d, k)) == ReadMoreConj(rt, d, k)
    decreases d
  {
    match d
    case Conj1(c) =>
      ConjReadBack(rt, c, k);
    case OrElse(l, r) =>
      ConjReadBack(rt, r, k);
      ClosedCons(OR, ConjYield(r, k));
      DisjReadBack(rt, l, [OR] + ConjYield(r, k));
  }

  lemma {:induction false} ConjReadBack(rt: Runtime, c: Conj, k: seq<Token>)
    requires ConjLegal(rt, c) && Closed(k)
    ensures Closed(ConjYield(c, k))
    ensures ReadConj(rt, ConjYield(c, k)) == ReadMoreNeg(rt, c, k)
    decreases c
  {
    match c
    case Neg1(n) =>
      NegReadBack(rt, n, k);
    case AndAlso(l, r) =>
      NegReadBack(rt, r, k);
      ClosedCons(AND, NegYield(r, k));
      ConjReadBack(rt, l, [AND] + NegYield(r, k));
  }

  lemma {:induction false} NegReadBack(rt: Runtime, n: Neg, k: seq<Token>)
    requires NegLegal(rt, n) && Closed(k)
    ensures Closed(NegYield(n, k))
    ensures ReadNeg(rt, NegYield(n, k)) == Read(n, k)
    decreases n
  {
    match n
    case Primary1(p) =>
      PrimaryReadBack(rt, p, k);
    case Negate(m) =>
      NegReadBack(rt, m, k);
      ClosedCons(NOT, NegYield(m, k));
  }

  lemma {:induction false} PrimaryReadBack(rt: Runtime, p: Primary, k: seq<Token>)
    requires PrimaryLegal(rt, p) && Closed(k)
    ensures Closed(PrimaryYield(p, k)) && PrimaryYield(p, k)[0].typ != TOp
    ensures ReadPrimary(rt, PrimaryYield(p, k)) == Read(p, k)
    decreases p
  {
    match p
    case Paren(d) =>
      ClosedCons(RPAREN, k);
      DisjReadBack(rt, d, [RPAREN] + k);
      ClosedCons(LPAREN, DisjYield(d, [RPAREN] + k));
    case Compare(field, op, v) =>
      OperandReadBack(rt, v, k);
      ClosedCons(Token(TOp, op), OperandYield(v, k));
      ClosedCons(Token(TIdent, field), [Token(TOp, op)] + OperandYield(v, k));
  }

  lemma {:induction false} OperandReadBack(rt: Runtime, v: Operand, k: seq<Token>)
    requires OperandLegal(rt, v) && Closed(k)
    ensures Closed(OperandYield(v, k)) && OperandYield(v, k)[0].typ != TRBracket
    ensures ReadOperand(rt, OperandYield(v, k)) == Read(v, k)
    decreases v
  {
    match v
    case Literal(t) =>
      ClosedCons(t, k);
    case EmptyList =>
      ClosedCons(RBRACKET, k);
      ClosedCons(LBRACKET, [RBRACKET] + k);
    case Bracketed(items) =>
      ItemsReadBack(rt, items, k);
      ClosedCons(LBRACKET, ItemsYield(items, [RBRACKET] + k));
  }

  lemma {:induction false} ItemsReadBack(rt: Runtime, xs: Items, k: seq<Token>)
    requires ItemsLegal(rt, xs) && Closed(k)
    ensures var ts := ItemsYield(xs, [RBRACKET] + k);
            Closed(ts) && ts[0].typ != TRBracket && ReadItems(rt, ts) == Read(xs, k)
    decreases xs
  {
    match xs
    case Last(v) =>
      ClosedCons(RBRACKET, k);
      OperandReadBack(rt, v, [RBRACKET] + k);
    case More(v, ys) =>
      ItemsReadBack(rt, ys, k);
      ClosedCons(COMMA, ItemsYield(ys, [RBRACKET] + k));
      OperandReadBack(rt, v, [COMMA] + ItemsYield(ys, [RBRACKET] + k));
  }

  /**
   * The grammar is unambiguous and the reader is sound and complete for it: a whole input is
   * read as d exactly when d derives it.
   */
  lemma {:induction false} WholeInput(rt: Runtime, ts: seq<Token>, d: Disj)
    requires Closed(ts)
    ensures ReadDisj(rt, ts) == Read(d, [EOF]) <==> DisjLegal(rt, d) && ts == DisjYield(d, [EOF])
  {
    if ReadDisj(rt, ts) == Read(d, [EOF]) {
      DisjReadIsDerived(rt, ts);
    }
    if DisjLegal(rt, d) && ts == DisjYield(d, [EOF]) {
      DisjReadBack(rt, d, [EOF]);
    }
  }

  lemma {:induction false} DerivationIsUnique(rt: Runtime, d: Disj, e: Disj)
    requires DisjLegal(rt, d) && DisjLegal(rt, e) && DisjYield(d, [EOF]) == DisjYield(e, [EOF])
    ensures d == e
  {
    DisjReadBack(rt, d, [EOF]);
    DisjReadBack(rt, e, [EOF]);
  }

  // ---------------------------------------------------------------- how reading fails

  /** Reading fails as invalid, or on a number among the tokens that does not parse; what it leaves is some of them. */
  ghost predicate Goes<T>(rt: Runtime, ts: seq<Token>, r: Reading<T>) {
    match r
    case Read(_, rest) => forall t | t in rest :: t in ts
    case Fail(e) =>
      || e == InvalidFilter
      || (e == NumberSyntax && exists t :: t in ts && t.typ == TNumber && LiteralValue(rt, t) == Err(NumberSyntax))
  }

  lemma {:induction false} GoesFrom<T>(rt: Runtime, ts: seq<Token>, rest: seq<Token>, r: Reading<T>)
    requires Goes(rt, rest, r) && forall t | t in rest :: t in ts
    ensures Goes(rt, ts, r)
  {
  }

  lemma {:induction false} TailGoes(ts: seq<Token>)
    requires Closed(ts) && ts[0].typ != TEOF
    ensures forall t | t in Tail(ts) :: t in ts
  {
  }

  lemma {:induction false} DisjGoes(rt: Runtime, ts: seq<Token>)
    requires Closed(ts)
    ensures Goes(rt, ts, ReadDisj(rt, ts))
    decreases |ts|, 6
  {
    ConjGoes(rt, ts);
    if ReadConj(rt, ts).Read? {
      var Read(c, rest) := ReadConj(rt, ts);
      MoreConjGoes(rt, Conj1(c), rest);
      GoesFrom(rt, ts, rest, ReadMoreConj(rt, Conj1(c), rest));
    }
  }

  lemma {:induction false} MoreConjGoes(rt: Runtime, l: Disj, ts: seq<Token>)
    requires Closed(ts)
    ensures Goes(rt, ts, ReadMoreConj(rt, l, ts))
    decreases |ts|, 5
  {
    if ts[0] == OR {
      TailGoes(ts);
      ConjGoes(rt, Tail(ts));
      GoesFrom(rt, ts, Tail(ts), ReadConj(rt, Tail(ts)));
      if ReadConj(rt, Tail(ts)).Read? {
        var Read(c, rest) := ReadConj(rt, Tail(ts));
        MoreConjGoes(rt, OrElse(l, c), rest);
        GoesFrom(rt, ts, rest, ReadMoreConj(rt, OrElse(l, c), rest));
      }
    }
  }

  lemma {:induction false} ConjGoes(rt: Runtime, ts: seq<Token>)
    requires Closed(ts)
    ensures Goes(rt, ts, ReadConj(rt, ts))
    decreases |ts|, 4
  {
    NegGoes(rt, ts);
    if ReadNeg(rt, ts).Read? {
      var Read(n, rest) := ReadNeg(rt, ts);
      MoreNegGoes(rt, Neg1(n), rest);
      GoesFrom(rt, ts, rest, ReadMoreNeg(rt, Neg1(n), rest));
    }
  }

  lemma {:induction false} MoreNegGoes(rt: Runtime, l: Conj, ts: seq<Token>)
    requires Closed(ts)
    ensures Goes(rt, ts, ReadMoreNeg(rt, l, ts))
    decreases |ts|, 3
  {
    if ts[0] == AND {
      TailGoes(ts);
      NegGoes(rt, Tail(ts));
      GoesFrom(rt, ts, Tail(ts), ReadNeg(rt, Tail(ts)));
      if ReadNeg(rt, Tail(ts)).Read? {
        var Read(n, rest) := ReadNeg(rt, Tail(ts));
        MoreNegGoes(rt, AndAlso(l, n), rest);
        GoesFrom(rt, ts, rest, ReadMoreNeg(rt, AndAlso(l, n), rest));
      }
    }
  }

  lemma {:induction false} NegGoes(rt: Runtime, ts: seq<Token>)
    requires Closed(ts)
    ensures Goes(rt, ts, ReadNeg(rt, ts))
    decreases |ts|, 2
  {
    if ts[0] == NOT {
      TailGoes(ts);
      NegGoes(rt, Tail(ts));
      GoesFrom(rt, ts, Tail(ts), ReadNeg(rt, Tail(ts)));
    } else {
      PrimaryGoes(rt, ts);
    }
  }

  lemma {:induction false} PrimaryGoes(rt: Runtime, ts: seq<Token>)
    requires Closed(ts)
    ensures Goes(rt, ts, ReadPrimary(rt, ts))
    decreases |ts|, 1
  {
    if ts[0].typ == TLParen {
      TailGoes(ts);
      DisjGoes(rt, Tail(ts));
      GoesFrom(rt, ts, Tail(ts), ReadDisj(rt, Tail(ts)));
      if ReadDisj(rt, Tail(ts)).Read? && ReadDisj(rt, Tail(ts)).rest[0].typ == TRParen {
        TailGoes(ReadDisj(rt, Tail(ts)).rest);
      }
    } else if ts[0].typ == TIdent && Tail(ts)[0].typ == TOp {
      TailGoes(ts);
      TailGoes(Tail(ts));
      OperandGoes(rt, Tail(Tail(ts)));
      GoesFrom(rt, ts, Tail(Tail(ts)), ReadOperand(rt, Tail(Tail(ts))));
    }
  }

  lemma {:induction false} OperandGoes(rt: Runtime, ts: seq<Token>)
    requires Closed(ts)
    ensures Goes(rt, ts, ReadOperand(rt, ts))
    decreases |ts|, 0
  {
    if ts[0].typ != TEOF {
      TailGoes(ts);
    }
    if ts[0].typ == TLBracket {
      if Tail(ts)[0].typ == TRBracket {
        TailGoes(Tail(ts));
      } else {
        ItemsGoes(rt, Tail(ts));
        GoesFrom(rt, ts, Tail(ts), ReadItems(rt, Tail(ts)));
      }
    }
  }

  lemma {:induction false} ItemsGoes(rt: Runtime, ts: seq<Token>)
    requires Closed(ts)
    ensures Goes(rt, ts, ReadItems(rt, ts))
    decreases |ts|, 1
  {
    OperandGoes(rt, ts);
    if ReadOperand(rt, ts).Read? {
      var rest := ReadOperand(rt, ts).rest;
      if rest[0].typ == TComma {
        TailGoes(rest);
        ItemsGoes(rt, Tail(rest));
        GoesFrom(rt, ts, Tail(rest), ReadItems(rt, Tail(rest)));
      } else if rest[0].typ == TRBracket {
        TailGoes(rest);
      }
    }
  }
}
