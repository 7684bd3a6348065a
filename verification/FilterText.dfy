/** From filter text to filter tree: ParseFilter, and exactly which texts it accepts. */
module FilterText {
  import opened Wrappers
  import opened Chars
  import opened FilterSyntax
  import opened FilterLexer
  import opened FilterGrammar
  import opened FilterReader
  import opened FilterParser

  /** strings.TrimSpace. */
  function TrimSpace(s: string): string {
    if s == "" then ""
    else if IsSpace(s[0]) then TrimSpace(s[1..])
    else TrimRight(s)
  }

  function TrimRight(s: string): string {
    if s == "" || !IsSpace(s[|s| - 1]) then s else TrimRight(s[..|s| - 1])
  }

  lemma {:induction false} ScanBeforeSpace(s: string, c: char)
    requires s != "" && IsSpace(c)
    ensures ScanOne(s + [c]) == ScanOne(s)
  {
    var t := s + [c];
    assert t[0] == s[0];
    match ScanOne(s)
    case Blank =>
    case Lexeme(n, tok) =>
      ScanFindsLexeme(s);
      ScanReadsLexeme(s[..n], tok, s[n..] + [c]);
      assert t == s[..n] + (s[n..] + [c]);
    case Bad =>
      if IsQuote(s[0]) {
        var q := s[0];
        assert forall j | 0 <= j < |s| - 1 :: t[1..][j] == s[1..][j];
        SpanStops(s[1..], OtherThan(q));
        SpanIs(t[1..], OtherThan(q), |s|);
      }
  }

  /** White space after a text changes neither its tokens nor its error. */
  lemma {:induction false} LexBeforeSpace(s: string, c: char)
    requires IsSpace(c)
    ensures Lex(s + [c]) == Lex(s)
    decreases |s|
  {
    var t := s + [c];
    if s == "" {
      assert t[1..] == "";
    } else {
      ScanBeforeSpace(s, c);
      match ScanOne(s)
      case Blank =>
        assert t[1..] == s[1..] + [c];
        LexBeforeSpace(s[1..], c);
      case Lexeme(n, _) =>
        assert t[n..] == s[n..] + [c];
        LexBeforeSpace(s[n..], c);
      case Bad =>
    }
  }

  lemma {:induction false} LexTrimmedRight(s: string)
    ensures Lex(TrimRight(s)) == Lex(s)
    decreases |s|
  {
    if s != "" && IsSpace(s[|s| - 1]) {
      LexTrimmedRight(s[..|s| - 1]);
      LexBeforeSpace(s[..|s| - 1], s[|s| - 1]);
      assert s[..|s| - 1] + [s[|s| - 1]] == s;
    }
  }

  /** Trimming a text changes neither its tokens nor its error. */
  lemma {:induction false} LexTrimmed(s: string)
    ensures Lex(TrimSpace(s)) == Lex(s)
    ensures TrimSpace(s) == "" <==> Lex(s) == Ok([EOF])
    decreases |s|
  {
    if s == "" {
    } else {
      if IsSpace(s[0]) {
        LexTrimmed(s[1..]);
      } else {
        LexTrimmedRight(s);
        TrimRightKeepsHead(s);
        if Lex(s).Ok? {
          var Lexeme(n, _) := ScanOne(s);
          var us := Lex(s[n..]).value;
          var _ := LexCutsText(s[n..]);
          assert |us| >= 1;
        }
      }
    }
  }

  lemma {:induction false} TrimRightKeepsHead(s: string)
    requires s != "" && !IsSpace(s[0])
    ensures TrimRight(s) != ""
    decreases |s|
  {
    if IsSpace(s[|s| - 1]) {
      assert |s| > 1;
      TrimRightKeepsHead(s[..|s| - 1]);
    }
  }

  /** The tokenizer's output is what the parser needs to stay in bounds. */
  lemma {:induction false} LexIsClosed(s: string)
    requires Lex(s).Ok?
    ensures Closed(Lex(s).value)
  {
    var ps := LexCutsText(s);
    WordsAreNotEOF(ps);
    var ts := Tokens(ps) + [EOF];
    var inner := ts[..|ts| - 1];
    assert inner == Tokens(ps);
    forall i | 0 <= i < |inner|
      ensures inner[i].typ != TEOF && Proper(inner[i])
    {
      assert inner[i] in Tokens(ps);
      var w :| Spells(w, inner[i]);
    }
  }

  /** The filter a text means: nil for a blank text, else the tree of its derivation. */
  function Parse(rt: Runtime, s: string): ParseResult {
    match Lex(s)
    case Err(e) => Err(e)
    case Ok(ts) =>
      if ts == [EOF] then Ok(Nil)
      else
        LexIsClosed(s);
        match ReadDisj(rt, ts)
        case Fail(e) => Err(e)
        case Read(d, rest) =>
          DisjReadIsDerived(rt, ts);
          if rest == [EOF] then Ok(DisjTree(rt, d)) else Err(InvalidFilter)
  }

  method ParseFilter(rt: Runtime, text: string) returns (r: ParseResult)
    ensures r == Parse(rt, text)
  {
    LexTrimmed(text);
    var expr := TrimSpace(text);
    if expr == "" {
      return Ok(Nil);
    }
    var toks := Tokenize(expr);
    if toks.Err? {
      return Err(toks.error);
    }
    LexIsClosed(expr);
    var p := new Parser(rt, toks.value);
    assert toks.value[0..] == toks.value;
    r := p.ParseOr();
    if r.Err? {
      return;
    }
    ClosedHead(p.Rest());
    if p.Peek().typ != TEOF {
      return Err(InvalidFilter);
    }
  }

  /** s can be cut into well-separated words that are the tokens of the derivation d. */
  ghost predicate Writes(s: string, d: Disj) {
    exists ps :: Good(ps) && Text(ps) == s && Tokens(ps) + [EOF] == DisjYield(d, [EOF])
  }

  /**
   * The language of filters: a text parses as the tree n exactly when it is blank and n is nil,
   * or when it writes a legal derivation that denotes n, with any spacing and any parentheses.
   */
  lemma {:induction false} ParsesExactly(rt: Runtime, s: string, n: FilterNode)
    ensures Parse(rt, s) == Ok(n) <==>
              || (TrimSpace(s) == "" && n == Nil)
              || exists d :: DisjLegal(rt, d) && DisjTree(rt, d) == n && Writes(s, d)
  {
    LexTrimmed(s);
    if Parse(rt, s) == Ok(n) && n != Nil {
      var d := ParsedDerivation(rt, s);
    }
    forall d | DisjLegal(rt, d) && DisjTree(rt, d) == n && Writes(s, d)
      ensures Parse(rt, s) == Ok(n)
    {
      WrittenParses(rt, s, d);
    }
    if Parse(rt, s) == Ok(Nil) && TrimSpace(s) != "" {
      LexIsClosed(s);
      DisjReadIsDerived(rt, Lex(s).value);
      DisjTreeWellFormed(rt, ReadDisj(rt, Lex(s).value).what);
      assert false;
    }
  }

  lemma {:induction false} ParsedDerivation(rt: Runtime, s: string) returns (d: Disj)
    requires Parse(rt, s).Ok? && Parse(rt, s).value != Nil
    ensures DisjLegal(rt, d) && Parse(rt, s) == Ok(DisjTree(rt, d)) && Writes(s, d)
  {
    var ts := Lex(s).value;
    LexIsClosed(s);
    d := ReadDisj(rt, ts).what;
    WholeInput(rt, ts, d);
    var ps := LexCutsText(s);
  }

  lemma {:induction false} WrittenParses(rt: Runtime, s: string, d: Disj)
    requires DisjLegal(rt, d) && Writes(s, d)
    ensures Parse(rt, s) == Ok(DisjTree(rt, d))
  {
    var ps :| Good(ps) && Text(ps) == s && Tokens(ps) + [EOF] == DisjYield(d, [EOF]);
    LexReadsPieces(ps);
    LexIsClosed(s);
    WholeInput(rt, Lex(s).value, d);
  }

  /** Every tree the parser returns is nil or has only well-formed nodes. */
  lemma {:induction false} ParsedIsWellFormed(rt: Runtime, s: string)
    requires Parse(rt, s).Ok?
    ensures var n := Parse(rt, s).value; n == Nil || WellFormed(n)
  {
    if Parse(rt, s).value != Nil {
      var d := ParsedDerivation(rt, s);
      DisjTreeWellFormed(rt, d);
    }
  }
}
