/**
 * The tokenizer of filter text.
 *
 * Lex is what Tokenize computes; Good says, without scanning, how a text is cut into gaps and
 * lexemes, and the two describe the same set of (text, tokens) pairs.
 */
module FilterLexer {
  import opened Wrappers
  import opened Chars
  import opened FilterSyntax

  type LexResult = Result<seq<Token>, FilterError>

  const KEYWORDS := ["AND", "OR", "NOT", "IN", "NOT_IN", "CONTAINS", "NOT_CONTAINS"]

  /** Keywords are case-insensitive operators, booleans are lower-cased, the rest is an identifier. */
  function WordToken(word: string): (t: Token)
    ensures t.typ == TOp || t.typ == TIdent
  {
    var upper := ToUpper(word);
    if upper in KEYWORDS then Token(TOp, upper)
    else if upper == "TRUE" || upper == "FALSE" then Token(TIdent, ToLower(word))
    else Token(TIdent, word)
  }

  datatype Scan = Blank | Lexeme(len: nat, tok: Token) | Bad

  /** The single-character tokens. */
  function Punctuation(c: char): Option<Token> {
    if c == '(' then Some(Token(TLParen, "("))
    else if c == ')' then Some(Token(TRParen, ")"))
    else if c == '[' then Some(Token(TLBracket, "["))
    else if c == ']' then Some(Token(TRBracket, "]"))
    else if c == ',' then Some(Token(TComma, ","))
    else None
  }

  predicate StartsNumber(s: string)
    requires |s| > 0
  {
    IsDigit(s[0]) || (s[0] == '-' && |s| > 1 && IsDigit(s[1]))
  }

  function OtherThan(c: char): char -> bool {
    x => x != c
  }

  function ScanString(s: string): (r: Scan)
    requires |s| > 0
    ensures r.Lexeme? ==> 0 < r.len <= |s|
  {
    var n := Span(s[1..], OtherThan(s[0]));
    if n == |s| - 1 then Bad else Lexeme(n + 2, Token(TString, s[1..n + 1]))
  }

  function ScanNumber(s: string): (r: Scan)
    requires |s| > 0
    ensures r.Lexeme? && 0 < r.len <= |s|
  {
    var n := 1 + Span(s[1..], IsNumChar);
    Lexeme(n, Token(TNumber, s[..n]))
  }

  function ScanOperator(s: string): (r: Scan)
    requires |s| > 0
    ensures r.Lexeme? && 0 < r.len <= |s|
  {
    var n := if |s| > 1 && s[1] == '=' then 2 else 1;
    Lexeme(n, Token(TOp, s[..n]))
  }

  function ScanWord(s: string): (r: Scan)
    requires |s| > 0 && IsWordStart(s[0])
    ensures r.Lexeme? && 0 < r.len <= |s|
  {
    var n := Span(s, IsWordChar);
    Lexeme(n, WordToken(s[..n]))
  }

  /** What the tokenizer's switch does at the head of a non-empty text. */
  function ScanOne(s: string): (r: Scan)
    requires |s| > 0
    ensures r.Lexeme? ==> 0 < r.len <= |s|
  {
    var c := s[0];
    if IsSpace(c) then Blank
    else if Punctuation(c).Some? then Lexeme(1, Punctuation(c).value)
    else if IsQuote(c) then ScanString(s)
    else if StartsNumber(s) then ScanNumber(s)
    else if IsOpChar(c) then ScanOperator(s)
    else if IsWordStart(c) then ScanWord(s)
    else Bad
  }

  /** The whole token list of a text, closed by one end-of-input token. */
  function Lex(s: string): LexResult
  {
    if s == [] then Ok([EOF])
    else
      match ScanOne(s)
      case Blank => Lex(s[1..])
      case Lexeme(n, t) => Prepend([t], Lex(s[n..]))
      case Bad => Err(InvalidFilter)
  }

  function Prepend(ts: seq<Token>, r: LexResult): LexResult {
    match r
    case Ok(us) => Ok(ts + us)
    case Err(e) => Err(e)
  }

  lemma {:induction false} LexStart(input: string)
    ensures Reads(input, 0, [])
  {
    assert input[0..] == input;
    if Lex(input).Ok? {
      assert [] + Lex(input).value == Lex(input).value;
    }
  }

  lemma {:induction false} LexEnd(input: string, tokens: seq<Token>)
    requires Reads(input, |input|, tokens)
    ensures Lex(input) == Ok(tokens + [EOF])
  {
    assert input[|input|..] == [];
  }

  lemma {:induction false} PrependTwice(ts: seq<Token>, t: Token, r: LexResult)
    ensures Prepend(ts, Prepend([t], r)) == Prepend(ts + [t], r)
  {
    if r.Ok? {
      assert ts + ([t] + r.value) == ts + [t] + r.value;
    }
  }

  /** The tokens read up to i, followed by those of the rest, are those of the input. */
  predicate Reads(input: string, i: nat, tokens: seq<Token>) {
    i <= |input| && Lex(input) == Prepend(tokens, Lex(input[i..]))
  }

  /** One step of the main loop keeps what the whole text lexes to. */
  lemma {:induction false} LexStep(input: string, i: nat, tokens: seq<Token>, scan: Scan)
    requires i < |input| && scan == ScanOne(input[i..])
    requires Reads(input, i, tokens)
    ensures scan.Blank? ==> Reads(input, i + 1, tokens)
    ensures scan.Lexeme? ==> Reads(input, i + scan.len, tokens + [scan.tok])
    ensures scan.Bad? ==> Lex(input) == Err(InvalidFilter)
  {
    var rest := input[i..];
    if scan.Blank? {
      assert rest[1..] == input[i + 1..];
    } else if scan.Lexeme? {
      assert rest[scan.len..] == input[i + scan.len..];
      PrependTwice(tokens, scan.tok, Lex(rest[scan.len..]));
    }
  }

  method Tokenize(input: string) returns (r: LexResult)
    ensures r == Lex(input)
  {
    var tokens: seq<Token> := [];
    var i := 0;
    LexStart(input);
    while i < |input|
      invariant 0 <= i <= |input|
      invariant Reads(input, i, tokens)
    {
      var next := ReadLexeme(input, i);
      LexStep(input, i, tokens, next);
      match next {
        case Blank =>
          i := i + 1;
        case Lexeme(n, t) =>
          tokens := tokens + [t];
          i := i + n;
        case Bad =>
          return Err(InvalidFilter);
      }
    }
    LexEnd(input, tokens);
    tokens := tokens + [EOF];
    return Ok(tokens);
  }

  /** The main loop's switch: a blank, or the lexeme that starts at start. */
  method ReadLexeme(input: string, start: nat) returns (r: Scan)
    requires start < |input|
    ensures r == ScanOne(input[start..])
  {
    var c := input[start];
    var i := start + 1;
    if IsSpace(c) {
      return Blank;
    } else if c == '(' {
      return Lexeme(1, Token(TLParen, "("));
    } else if c == ')' {
      return Lexeme(1, Token(TRParen, ")"));
    } else if c == '[' {
      return Lexeme(1, Token(TLBracket, "["));
    } else if c == ']' {
      return Lexeme(1, Token(TRBracket, "]"));
    } else if c == ',' {
      return Lexeme(1, Token(TComma, ","));
    } else if IsQuote(c) {
      r := ReadString(input, start);
    } else if IsDigit(c) || (c == '-' && i < |input| && IsDigit(input[i])) {
      r := ReadNumber(input, start);
    } else if IsOpChar(c) {
      r := ReadOperator(input, start);
    } else if IsWordStart(c) {
      r := ReadWord(input, start);
    } else {
      return Bad;
    }
  }

  method ReadString(input: string, start: nat) returns (r: Scan)
    requires start < |input|
    ensures r == ScanString(input[start..])
  {
    ghost var rest := input[start..];
    assert rest[1..] == input[start + 1..];
    var i := ScanWhile(input, start + 1, OtherThan(input[start]));
    if i >= |input| {
      return Bad;
    }
    assert rest[1..i - start] == input[start + 1..i];
    return Lexeme(i + 1 - start, Token(TString, input[start + 1..i]));
  }

  method ReadNumber(input: string, start: nat) returns (r: Scan)
    requires start < |input| && StartsNumber(input[start..])
    ensures r == ScanNumber(input[start..])
  {
    var i := ScanWhile(input, if input[start] == '-' then start + 1 else start, IsNumChar);
    NumberSpan(input, start, i);
    assert input[start..][..i - start] == input[start..i];
    return Lexeme(i - start, Token(TNumber, input[start..i]));
  }

  method ReadOperator(input: string, start: nat) returns (r: Scan)
    requires start < |input|
    ensures r == ScanOperator(input[start..])
  {
    var i := start + 1;
    if i < |input| && input[i] == '=' {
      i := i + 1;
    }
    assert input[start..][..i - start] == input[start..i];
    return Lexeme(i - start, Token(TOp, input[start..i]));
  }

  method ReadWord(input: string, start: nat) returns (r: Scan)
    requires start < |input| && IsWordStart(input[start])
    ensures r == ScanWord(input[start..])
  {
    var i := ScanWhile(input, start, IsWordChar);
    assert input[start..][..i - start] == input[start..i];
    return Lexeme(i - start, WordToken(input[start..i]));
  }

  /** Scanning a number from its sign or from its first digit reaches the same end. */
  lemma {:induction false} NumberSpan(input: string, start: nat, end: nat)
    requires start < |input|
    requires IsDigit(input[start]) || (input[start] == '-' && start + 1 < |input| && IsDigit(input[start + 1]))
    requires end == (if input[start] == '-' then start + 1 + Span(input[start + 1..], IsNumChar)
                     else start + Span(input[start..], IsNumChar))
    ensures start < end && end - start == 1 + Span(input[start..][1..], IsNumChar)
  {
    assert input[start..][1..] == input[start + 1..];
  }

  /** The inner loops of the tokenizer: advance while the class holds. */
  method ScanWhile(input: string, start: nat, p: char -> bool) returns (i: nat)
    requires start <= |input|
    ensures i == start + Span(input[start..], p) <= |input|
  {
    i := start;
    while i < |input| && p(input[i])
      invariant start <= i <= |input|
      invariant forall j | start <= j < i :: p(input[j])
    {
      i := i + 1;
    }
    SpanIs(input[start..], p, i - start);
  }

  // ---------------------------------------------------------------- texts as gaps and lexemes

  datatype Piece = Gap(c: char) | Word(text: string, tok: Token)

  predicate NumberShape(w: string) {
    && |w| > 0
    && (IsDigit(w[0]) || (w[0] == '-' && |w| > 1 && IsDigit(w[1])))
    && forall i | 1 <= i < |w| :: IsNumChar(w[i])
  }

  predicate OperatorShape(w: string) {
    && 1 <= |w| <= 2
    && IsOpChar(w[0])
    && (|w| == 2 ==> w[1] == '=')
  }

  predicate WordShape(w: string) {
    && |w| > 0
    && IsWordStart(w[0])
    && forall i | 0 <= i < |w| :: IsWordChar(w[i])
  }

  predicate Quoted(w: string, body: string) {
    && |w| >= 2
    && IsQuote(w[0])
    && w == [w[0]] + body + [w[0]]
    && w[0] !in body
  }

  /** w is a way to write the token t. */
  predicate Spells(w: string, t: Token) {
    match t.typ
    case TLParen => w == "(" && t.val == w
    case TRParen => w == ")" && t.val == w
    case TLBracket => w == "[" && t.val == w
    case TRBracket => w == "]" && t.val == w
    case TComma => w == "," && t.val == w
    case TString => Quoted(w, t.val)
    case TNumber => NumberShape(w) && t.val == w
    case TOp => (OperatorShape(w) && t.val == w) || (WordShape(w) && t == WordToken(w))
    case TIdent => WordShape(w) && t == WordToken(w)
    case TEOF => false
  }

  /** The character c, written right after the lexeme w, would be read as part of it. */
  predicate Fuses(w: string, c: char)
    requires |w| > 0
  {
    if IsWordStart(w[0]) then IsWordChar(c)
    else if IsDigit(w[0]) || w[0] == '-' then IsNumChar(c)
    else IsOpChar(w[0]) && |w| == 1 && c == '='
  }

  function Text(ps: seq<Piece>): string {
    if ps == [] then ""
    else (match ps[0] case Gap(c) => [c] case Word(w, _) => w) + Text(ps[1..])
  }

  function Tokens(ps: seq<Piece>): seq<Token> {
    if ps == [] then []
    else (match ps[0] case Gap(_) => [] case Word(_, t) => [t]) + Tokens(ps[1..])
  }

  /** Gaps are white space, words spell their tokens, and no word runs into what follows it. */
  predicate Good(ps: seq<Piece>) {
    ps == [] ||
    (&& Good(ps[1..])
     && match ps[0]
        case Gap(c) => IsSpace(c)
        case Word(w, t) =>
          && Spells(w, t)
          && |w| > 0
          && (Text(ps[1..]) != "" ==> !Fuses(w, Text(ps[1..])[0])))
  }

  lemma {:induction false} ScanReadsString(w: string, body: string, rest: string)
    requires Quoted(w, body)
    ensures ScanString(w + rest) == Lexeme(|w|, Token(TString, body))
  {
    var s := w + rest;
    assert forall j | 0 <= j < |body| :: s[1..][j] == w[j + 1] == body[j] && body[j] in body;
    assert s[1..][|body|] == w[|body| + 1] == s[0];
    SpanIs(s[1..], OtherThan(s[0]), |body|);
    assert s[1..|body| + 1] == body;
  }

  lemma {:induction false} ScanReadsNumber(w: string, rest: string)
    requires NumberShape(w)
    requires rest != "" ==> !IsNumChar(rest[0])
    ensures ScanNumber(w + rest) == Lexeme(|w|, Token(TNumber, w))
  {
    var s := w + rest;
    assert s[..|w|] == w;
    assert forall j | 0 <= j < |w| - 1 :: s[1..][j] == w[j + 1];
    assert rest != "" ==> s[1..][|w| - 1] == rest[0];
    SpanIs(s[1..], IsNumChar, |w| - 1);
  }

  lemma {:induction false} ScanReadsOperator(w: string, rest: string)
    requires OperatorShape(w)
    requires rest != "" && |w| == 1 ==> rest[0] != '='
    ensures ScanOperator(w + rest) == Lexeme(|w|, Token(TOp, w))
  {
    var s := w + rest;
    assert s[..|w|] == w;
    assert |s| > 1 ==> s[1] == if |w| == 2 then w[1] else rest[0];
  }

  lemma {:induction false} ScanReadsWord(w: string, rest: string)
    requires WordShape(w)
    requires rest != "" ==> !IsWordChar(rest[0])
    ensures ScanWord(w + rest) == Lexeme(|w|, WordToken(w))
  {
    var s := w + rest;
    assert s[..|w|] == w;
    assert forall j | 0 <= j < |w| :: s[j] == w[j];
    assert rest != "" ==> s[|w|] == rest[0];
    SpanIs(s, IsWordChar, |w|);
  }

  lemma {:induction false} ScanReadsLexeme(w: string, t: Token, rest: string)
    requires Spells(w, t) && |w| > 0
    requires rest != "" ==> !Fuses(w, rest[0])
    ensures ScanOne(w + rest) == Lexeme(|w|, t)
  {
    assert (w + rest)[0] == w[0];
    if t.typ == TString {
      ScanReadsString(w, t.val, rest);
    } else if t.typ == TNumber {
      assert |w| > 1 ==> (w + rest)[1] == w[1];
      ScanReadsNumber(w, rest);
    } else if t.typ == TOp || t.typ == TIdent {
      if IsWordStart(w[0]) {
        ScanReadsWord(w, rest);
      } else {
        ScanReadsOperator(w, rest);
      }
    }
  }

  /** Every well-cut text is tokenized into exactly its words, in order. */
  lemma {:induction false} LexReadsPieces(ps: seq<Piece>)
    requires Good(ps)
    ensures Lex(Text(ps)) == Ok(Tokens(ps) + [EOF])
  {
    if ps == [] {
      assert Tokens(ps) + [EOF] == [EOF];
    } else {
      LexReadsPieces(ps[1..]);
      var rest := Text(ps[1..]);
      match ps[0]
      case Gap(c) =>
        assert Text(ps)[1..] == rest;
        assert Tokens(ps) == Tokens(ps[1..]);
      case Word(w, t) =>
        ScanReadsLexeme(w, t, rest);
        assert Text(ps)[|w|..] == rest;
        assert [t] + (Tokens(ps[1..]) + [EOF]) == Tokens(ps) + [EOF];
    }
  }

  /** What the scanner reads is a way to write its token, cut where it cannot go on. */
  predicate Cuts(s: string, r: Scan)
    requires |s| > 0
  {
    r.Lexeme? ==>
      && 0 < r.len <= |s|
      && Spells(s[..r.len], r.tok)
      && (r.len < |s| ==> !Fuses(s[..r.len], s[r.len]))
  }

  lemma {:induction false} StringIsCut(s: string)
    requires |s| > 0 && IsQuote(s[0])
    ensures Cuts(s, ScanString(s))
  {
    var q, n := s[0], Span(s[1..], OtherThan(s[0]));
    SpanStops(s[1..], OtherThan(s[0]));
    if n < |s| - 1 {
      var body := s[1..n + 1];
      assert forall j | 0 <= j < |body| :: body[j] == s[1..][j] != q;
      assert s[1..][n] == q;
      assert s[..n + 2] == [q] + body + [q];
      assert Quoted(s[..n + 2], body);
    }
  }

  lemma {:induction false} NumberIsCut(s: string)
    requires |s| > 0 && StartsNumber(s)
    ensures Cuts(s, ScanNumber(s))
  {
    var n := 1 + Span(s[1..], IsNumChar);
    SpanStops(s[1..], IsNumChar);
    assert s[0] == '-' ==> IsNumChar(s[1..][0]);
    assert forall j | 1 <= j < n :: s[..n][j] == s[1..][j - 1];
    assert n < |s| ==> s[n] == s[1..][n - 1];
    assert NumberShape(s[..n]);
  }

  lemma {:induction false} WordIsCut(s: string)
    requires |s| > 0 && IsWordStart(s[0])
    ensures Cuts(s, ScanWord(s))
  {
    SpanStops(s, IsWordChar);
    assert WordShape(s[..Span(s, IsWordChar)]);
  }

  lemma {:induction false} ScanFindsLexeme(s: string)
    requires |s| > 0
    ensures Cuts(s, ScanOne(s))
  {
    var c := s[0];
    if IsSpace(c) || Punctuation(c).Some? {
    } else if IsQuote(c) {
      StringIsCut(s);
    } else if StartsNumber(s) {
      NumberIsCut(s);
    } else if IsOpChar(c) {
      assert OperatorShape(s[..ScanOperator(s).len]);
    } else if IsWordStart(c) {
      WordIsCut(s);
    }
  }

  lemma {:induction false} GapInFront(c: char, ps: seq<Piece>)
    requires Good(ps) && IsSpace(c)
    ensures Good([Gap(c)] + ps)
    ensures Text([Gap(c)] + ps) == [c] + Text(ps)
    ensures Tokens([Gap(c)] + ps) == Tokens(ps)
  {
    assert ([Gap(c)] + ps)[1..] == ps;
  }

  lemma {:induction false} WordInFront(w: string, t: Token, ps: seq<Piece>)
    requires Good(ps) && Spells(w, t) && |w| > 0
    requires Text(ps) != "" ==> !Fuses(w, Text(ps)[0])
    ensures Good([Word(w, t)] + ps)
    ensures Text([Word(w, t)] + ps) == w + Text(ps)
    ensures Tokens([Word(w, t)] + ps) == [t] + Tokens(ps)
  {
    assert ([Word(w, t)] + ps)[1..] == ps;
  }

  /** One more lexeme in front of a cut rest. */
  lemma {:induction false} CutInFront(s: string, n: nat, t: Token, ps: seq<Piece>)
    requires |s| > 0 && ScanOne(s) == Lexeme(n, t)
    requires Good(ps) && Text(ps) == s[n..]
    ensures Good([Word(s[..n], t)] + ps)
    ensures Text([Word(s[..n], t)] + ps) == s
    ensures Tokens([Word(s[..n], t)] + ps) + [EOF] == [t] + (Tokens(ps) + [EOF])
  {
    ScanFindsLexeme(s);
    WordInFront(s[..n], t, ps);
    assert s[..n] + s[n..] == s;
  }

  /** Whatever the tokenizer accepts is a well-cut text whose words are the tokens. */
  lemma {:induction false} LexCutsText(s: string) returns (ps: seq<Piece>)
    requires Lex(s).Ok?
    ensures Good(ps) && Text(ps) == s && Lex(s) == Ok(Tokens(ps) + [EOF])
    decreases |s|
  {
    if s == [] {
      ps := [];
      assert Tokens(ps) + [EOF] == [EOF];
    } else {
      match ScanOne(s)
      case Blank =>
        var qs := LexCutsText(s[1..]);
        GapInFront(s[0], qs);
        ps := [Gap(s[0])] + qs;
      case Lexeme(n, t) =>
        var qs := LexCutsText(s[n..]);
        CutInFront(s, n, t, qs);
        ps := [Word(s[..n], t)] + qs;
    }
  }

  /**
   * The tokenizer accepts exactly the well-cut texts, and returns exactly their words followed
   * by one end-of-input token.
   */
  lemma {:induction false} LexExactly(s: string, ts: seq<Token>)
    ensures Lex(s) == Ok(ts) <==> exists ps :: Good(ps) && Text(ps) == s && ts == Tokens(ps) + [EOF]
  {
    if Lex(s) == Ok(ts) {
      var ps := LexCutsText(s);
    }
    forall ps | Good(ps) && Text(ps) == s && ts == Tokens(ps) + [EOF]
      ensures Lex(s) == Ok(ts)
    {
      LexReadsPieces(ps);
    }
  }

  /** No word is an end-of-input token. */
  lemma {:induction false} WordsAreNotEOF(ps: seq<Piece>)
    requires Good(ps)
    ensures forall t | t in Tokens(ps) :: t.typ != TEOF && exists w :: Spells(w, t)
  {
    if ps == [] {
    } else {
      WordsAreNotEOF(ps[1..]);
      if ps[0].Word? {
        assert Spells(ps[0].text, ps[0].tok);
      }
    }
  }
}
