/** The parser: tokens, a position advanced in place, and one method per grammar level. */
module FilterParser {
  import opened Wrappers
  import opened FilterSyntax
  import opened FilterGrammar
  import opened FilterReader

  type ParseResult = Result<FilterNode, FilterError>

  class Parser {
    const rt: Runtime
    const tokens: seq<Token>
    var pos: nat

    constructor (rt: Runtime, tokens: seq<Token>)
      ensures this.rt == rt && this.tokens == tokens && pos == 0
    {
      this.rt := rt;
      this.tokens := tokens;
      pos := 0;
    }

    /** peek and advance are plain slice reads: this is what keeps them in bounds. */
    ghost predicate Valid()
      reads this
    {
      Closed(tokens) && pos < |tokens|
    }

    ghost function Rest(): (ts: seq<Token>)
      reads this
      requires Valid()
      ensures Closed(ts) && ts[0] == tokens[pos]
    {
      ClosedTail(tokens, pos);
      tokens[pos..]
    }

    /** After success the parser stands at rest; after failure it has not passed the end. */
    ghost predicate StandsAt(rest: seq<Token>)
      reads this
    {
      Valid() && Rest() == rest
    }

    function Peek(): (t: Token)
      reads this
      requires Valid()
      ensures t == Rest()[0]
    {
      tokens[pos]
    }

    method Advance() returns (t: Token)
      requires Valid()
      modifies this
      ensures t == old(Peek())
      ensures pos == old(pos) + 1
      ensures t.typ != TEOF ==> StandsAt(Tail(old(Rest())))
    {
      t := tokens[pos];
      ClosedHead(Rest());
      assert tokens[pos..][1..] == tokens[pos + 1..];
      pos := pos + 1;
    }

    /** parseOr: the derivation ReadDisj finds, as a filter tree. */
    method ParseOr() returns (r: ParseResult)
      requires Valid()
      modifies this
      ensures match ReadDisj(rt, old(Rest()))
              case Fail(e) => r == Err(e) && pos <= |tokens|
              case Read(d, rest) => DisjLegal(rt, d) && r == Ok(DisjTree(rt, d)) && StandsAt(rest)
      decreases |tokens| - pos, 6
    {
      ghost var start := Rest();
      r := ParseAnd();
      if r.Err? {
        return;
      }
      var left := r.value;
      ConjReadIsDerived(rt, start);
      ghost var d := Conj1(ReadConj(rt, start).what);
      while Peek().typ == TOp && Peek().val == "OR"
        invariant Valid() && |Rest()| < |start|
        invariant DisjLegal(rt, d) && left == DisjTree(rt, d)
        invariant ReadDisj(rt, start) == ReadMoreConj(rt, d, Rest())
        decreases |tokens| - pos
      {
        var _ := Advance();
        ghost var rest := Rest();
        r := ParseAnd();
        if r.Err? {
          return;
        }
        ConjReadIsDerived(rt, rest);
        d := OrElse(d, ReadConj(rt, rest).what);
        left := Or(left, r.value);
      }
      return Ok(left);
    }

    method ParseAnd() returns (r: ParseResult)
      requires Valid()
      modifies this
      ensures match ReadConj(rt, old(Rest()))
              case Fail(e) => r == Err(e) && pos <= |tokens|
              case Read(c, rest) => ConjLegal(rt, c) && r == Ok(ConjTree(rt, c)) && StandsAt(rest)
      decreases |tokens| - pos, 5
    {
      ghost var start := Rest();
      r := ParseNot();
      if r.Err? {
        return;
      }
      var left := r.value;
      NegReadIsDerived(rt, start);
      ghost var c := Neg1(ReadNeg(rt, start).what);
      while Peek().typ == TOp && Peek().val == "AND"
        invariant Valid() && |Rest()| < |start|
        invariant ConjLegal(rt, c) && left == ConjTree(rt, c)
        invariant ReadConj(rt, start) == ReadMoreNeg(rt, c, Rest())
        decreases |tokens| - pos
      {
        var _ := Advance();
        ghost var rest := Rest();
        r := ParseNot();
        if r.Err? {
          return;
        }
        NegReadIsDerived(rt, rest);
        c := AndAlso(c, ReadNeg(rt, rest).what);
        left := And(left, r.value);
      }
      return Ok(left);
    }

    method ParseNot() returns (r: ParseResult)
      requires Valid()
      modifies this
      ensures match ReadNeg(rt, old(Rest()))
              case Fail(e) => r == Err(e) && pos <= |tokens|
              case Read(n, rest) => NegLegal(rt, n) && r == Ok(NegTree(rt, n)) && StandsAt(rest)
      decreases |tokens| - pos, 4
    {
      if Peek().typ == TOp && Peek().val == "NOT" {
        var _ := Advance();
        r := ParseNot();
        if r.Err? {
          return;
        }
        return Ok(Not(r.value));
      }
      r := ParsePrimary();
    }

    method ParsePrimary() returns (r: ParseResult)
      requires Valid()
      modifies this
      ensures match ReadPrimary(rt, old(Rest()))
              case Fail(e) => r == Err(e) && pos <= |tokens|
              case Read(p, rest) => PrimaryLegal(rt, p) && r == Ok(PrimaryTree(rt, p)) && StandsAt(rest)
      decreases |tokens| - pos, 3
    {
      if Peek().typ == TLParen {
        var _ := Advance();
        r := ParseOr();
        if r.Err? {
          return;
        }
        if Peek().typ != TRParen {
          return Err(InvalidFilter);
        }
        var _ := Advance();
        return;
      }
      r := ParseCondition();
    }

    method ParseCondition() returns (r: ParseResult)
      requires Valid() && Peek().typ != TLParen
      modifies this
      ensures match ReadPrimary(rt, old(Rest()))
              case Fail(e) => r == Err(e) && pos <= |tokens|
              case Read(p, rest) => PrimaryLegal(rt, p) && r == Ok(PrimaryTree(rt, p)) && StandsAt(rest)
      decreases |tokens| - pos, 2
    {
      if Peek().typ != TIdent {
        return Err(InvalidFilter);
      }
      var field := Advance();
      if Peek().typ != TOp {
        return Err(InvalidFilter);
      }
      var rawOp := Advance();
      var op := ToOp(rawOp.val);
      if !IsKnownOp(op) {
        return Err(InvalidFilter);
      }
      var v := ParseValue();
      if v.Err? {
        return Err(v.error);
      }
      return Ok(Cond(field.val, op, v.value));
    }

    /** parseValue: it may consume the end-of-input token, but only to fail at once. */
    method ParseValue() returns (r: Result<Value, FilterError>)
      requires Valid()
      modifies this
      ensures match ReadOperand(rt, old(Rest()))
              case Fail(e) => r == Err(e) && pos <= |tokens|
              case Read(v, rest) => OperandLegal(rt, v) && r == Ok(OperandValue(rt, v)) && StandsAt(rest)
      decreases |tokens| - pos, 1
    {
      var t := Advance();
      if t.typ != TLBracket {
        return LiteralValue(rt, t);
      }
      if Peek().typ == TRBracket {
        var _ := Advance();
        return Ok(List([]));
      }
      r := ParseList();
    }

    /** The loop of parseValue's bracket case: items up to the closing bracket. */
    method ParseList() returns (r: Result<Value, FilterError>)
      requires Valid()
      modifies this
      ensures match ReadItems(rt, old(Rest()))
              case Fail(e) => r == Err(e) && pos <= |tokens|
              case Read(xs, rest) => ItemsLegal(rt, xs) && r == Ok(List(ItemsValues(rt, xs))) && StandsAt(rest)
      decreases |tokens| - pos, 2
    {
      var values: seq<Value> := [];
      ghost var start := Rest();
      ghost var read: seq<Operand> := [];
      while true
        invariant Valid() && |Rest()| <= |start|
        invariant ItemsRead(rt, start, read, values, Rest())
        decreases |tokens| - pos
      {
        ghost var here := Rest();
        var v := ParseValue();
        if v.Err? {
          ReadStuck(rt, start, read, values, here);
          return Err(v.error);
        }
        values := values + [v.value];
        ghost var operand := ReadOperand(rt, here).what;
        if Peek().typ == TComma {
          var _ := Advance();
          ReadAnother(rt, start, read, values[..|values| - 1], here);
          read := read + [operand];
        } else if Peek().typ == TRBracket {
          var _ := Advance();
          ReadLast(rt, start, read, values[..|values| - 1], here);
          return Ok(List(values));
        } else {
          ReadStuck(rt, start, read, values[..|values| - 1], here);
          return Err(InvalidFilter);
        }
      }
    }
  }

  // ---------------------------------------------------------------- the list loop, left to right

  ghost predicate AllLegal(rt: Runtime, vs: seq<Operand>) {
    forall i | 0 <= i < |vs| :: OperandLegal(rt, vs[i])
  }

  ghost function OperandValues(rt: Runtime, vs: seq<Operand>): (r: seq<Value>)
    requires AllLegal(rt, vs)
  {
    seq(|vs|, i requires 0 <= i < |vs| => OperandValue(rt, vs[i]))
  }

  /** The reading of a list whose first operands are vs and whose remainder reads as r. */
  ghost function ItemsAfter(rt: Runtime, vs: seq<Operand>, r: Reading<Items>): Reading<Items> {
    if r.Fail? || vs == [] then r
    else ItemsAfter(rt, vs[..|vs| - 1], Read(More(vs[|vs| - 1], r.what), r.rest))
  }

  lemma {:induction false} ItemsAfterOne(rt: Runtime, vs: seq<Operand>, v: Operand, r: Reading<Items>)
    ensures ItemsAfter(rt, vs + [v], r)
         == if r.Fail? then r else ItemsAfter(rt, vs, Read(More(v, r.what), r.rest))
  {
    assert (vs + [v])[..|vs|] == vs;
  }

  lemma {:induction false} ItemsAfterValues(rt: Runtime, vs: seq<Operand>, xs: Items, rest: seq<Token>)
    requires AllLegal(rt, vs) && ItemsLegal(rt, xs)
    ensures var r := ItemsAfter(rt, vs, Read(xs, rest));
            r.Read? && r.rest == rest && ItemsLegal(rt, r.what)
            && ItemsValues(rt, r.what) == OperandValues(rt, vs) + ItemsValues(rt, xs)
    decreases |vs|
  {
    if vs == [] {
    } else {
      var v := vs[|vs| - 1];
      ItemsAfterValues(rt, vs[..|vs| - 1], More(v, xs), rest);
      assert OperandValues(rt, vs) == OperandValues(rt, vs[..|vs| - 1]) + [OperandValue(rt, v)];
    }
  }

  /** The loop has read the operands in front of here, with these values. */
  ghost predicate ItemsRead(rt: Runtime, start: seq<Token>, read: seq<Operand>, values: seq<Value>, here: seq<Token>) {
    && Closed(start) && Closed(here)
    && AllLegal(rt, read) && values == OperandValues(rt, read)
    && ItemsAfter(rt, read, ReadItems(rt, here)) == ReadItems(rt, start)
  }

  lemma {:induction false} ReadAnother(
      rt: Runtime, start: seq<Token>, read: seq<Operand>, values: seq<Value>, here: seq<Token>)
    requires ItemsRead(rt, start, read, values, here) && ReadOperand(rt, here).Read?
    requires ReadOperand(rt, here).rest[0].typ == TComma
    ensures var Read(v, rest) := ReadOperand(rt, here);
            OperandLegal(rt, v) && ItemsRead(rt, start, read + [v], values + [OperandValue(rt, v)], Tail(rest))
  {
    OperandReadIsDerived(rt, here);
    var Read(v, rest) := ReadOperand(rt, here);
    ItemsAfterOne(rt, read, v, ReadItems(rt, Tail(rest)));
    OneMoreValue(rt, read, v);
  }

  lemma {:induction false} ReadLast(
      rt: Runtime, start: seq<Token>, read: seq<Operand>, values: seq<Value>, here: seq<Token>)
    requires ItemsRead(rt, start, read, values, here) && ReadOperand(rt, here).Read?
    requires ReadOperand(rt, here).rest[0].typ == TRBracket
    ensures var Read(v, rest) := ReadOperand(rt, here);
            var r := ReadItems(rt, start);
            && OperandLegal(rt, v) && r.Read? && r.rest == Tail(rest) && ItemsLegal(rt, r.what)
            && ItemsValues(rt, r.what) == values + [OperandValue(rt, v)]
  {
    OperandReadIsDerived(rt, here);
    var Read(v, rest) := ReadOperand(rt, here);
    ItemsAfterValues(rt, read, Last(v), Tail(rest));
  }

  lemma {:induction false} ReadStuck(
      rt: Runtime, start: seq<Token>, read: seq<Operand>, values: seq<Value>, here: seq<Token>)
    requires ItemsRead(rt, start, read, values, here)
    requires ReadItems(rt, here).Fail?
    ensures ReadItems(rt, start) == ReadItems(rt, here)
  {
  }

  lemma {:induction false} OneMoreValue(rt: Runtime, vs: seq<Operand>, v: Operand)
    requires AllLegal(rt, vs) && OperandLegal(rt, v)
    ensures AllLegal(rt, vs + [v])
    ensures OperandValues(rt, vs + [v]) == OperandValues(rt, vs) + [OperandValue(rt, v)]
  {
  }
}
