/** ASCII character classes and scanning. */
module Chars {

  predicate IsSpace(c: char) {
    '\t' <= c <= '\r' || c == ' '
  }

  predicate IsDigit(c: char) {
    '0' <= c <= '9'
  }

  predicate IsLetter(c: char) {
    'a' <= c <= 'z' || 'A' <= c <= 'Z'
  }

  predicate IsWordStart(c: char) {
    IsLetter(c) || c == '_'
  }

  predicate IsWordChar(c: char) {
    IsLetter(c) || IsDigit(c) || c == '_' || c == '.'
  }

  predicate IsNumChar(c: char) {
    IsDigit(c) || c == '.'
  }

  predicate IsOpChar(c: char) {
    c == '=' || c == '!' || c == '<' || c == '>'
  }

  predicate IsQuote(c: char) {
    c == '\'' || c == '"'
  }

  const LOWER := "abcdefghijklmnopqrstuvwxyz"
  const UPPER := "ABCDEFGHIJKLMNOPQRSTUVWXYZ"
  const DIGITS := "0123456789"

  /** The k-th letter in both cases. */
  lemma {:induction false} LetterAt(k: nat)
    requires k < 26
    ensures LOWER[k] == 'a' + k as char && UPPER[k] == 'A' + k as char
  {
  }

  lemma {:induction false} LowerLetters(c: char)
    ensures c in LOWER <==> 'a' <= c <= 'z'
  {
    if 'a' <= c <= 'z' {
      LetterAt((c - 'a') as nat);
    }
  }

  lemma {:induction false} UpperLetters(c: char)
    ensures c in UPPER <==> 'A' <= c <= 'Z'
  {
    if 'A' <= c <= 'Z' {
      LetterAt((c - 'A') as nat);
    }
  }

  lemma {:induction false} Letters(c: char)
    ensures IsLetter(c) <==> c in LOWER || c in UPPER
  {
    LowerLetters(c);
    UpperLetters(c);
  }

  /** The classes as alphabets. */
  lemma {:induction false} Alphabets(c: char)
    ensures IsDigit(c) <==> c in DIGITS
    ensures IsSpace(c) <==> c in " \t\n\U{0B}\U{0C}\r"
    ensures IsWordStart(c) <==> c in LOWER || c in UPPER || c == '_'
    ensures IsWordChar(c) <==> c in LOWER || c in UPPER || c in DIGITS || c == '_' || c == '.'
    ensures IsNumChar(c) <==> c in DIGITS || c == '.'
    ensures IsOpChar(c) <==> c in "=!<>"
    ensures IsQuote(c) <==> c in "'\""
  {
    Letters(c);
  }

  /** The two cases of a letter stand at the same place of their alphabets. */
  lemma {:induction false} Cases(s: string, i: nat, k: nat)
    requires i < |s| && k < 26 && (s[i] == LOWER[k] || s[i] == UPPER[k])
    ensures ToUpper(s)[i] == UPPER[k] && ToLower(s)[i] == LOWER[k]
  {
    LetterAt(k);
  }

  /** Other characters have one case. */
  lemma {:induction false} OtherCases(s: string, i: nat)
    requires i < |s| && s[i] !in LOWER && s[i] !in UPPER
    ensures ToUpper(s)[i] == s[i] && ToLower(s)[i] == s[i]
  {
    Letters(s[i]);
  }

  function ToUpper(s: string): (u: string)
    ensures |u| == |s|
  {
    seq(|s|, i requires 0 <= i < |s| => if 'a' <= s[i] <= 'z' then s[i] - 'a' + 'A' else s[i])
  }

  function ToLower(s: string): (u: string)
    ensures |u| == |s|
  {
    seq(|s|, i requires 0 <= i < |s| => if 'A' <= s[i] <= 'Z' then s[i] - 'A' + 'a' else s[i])
  }

  /** Length of the longest prefix of s whose characters all satisfy p. */
  function Span(s: string, p: char -> bool): (n: nat)
    ensures n <= |s|
  {
    if s == [] || !p(s[0]) then 0 else 1 + Span(s[1..], p)
  }

  /** The span matches throughout and stops where p first fails. */
  lemma {:induction false} SpanStops(s: string, p: char -> bool)
    ensures forall j | 0 <= j < Span(s, p) :: p(s[j])
    ensures Span(s, p) < |s| ==> !p(s[Span(s, p)])
  {
    if s != [] && p(s[0]) {
      SpanStops(s[1..], p);
    }
  }

  /** A prefix of matching characters that the rest of the text cannot lengthen is the span. */
  lemma {:induction false} SpanIs(s: string, p: char -> bool, n: nat)
    requires n <= |s|
    requires forall j | 0 <= j < n :: p(s[j])
    requires n < |s| ==> !p(s[n])
    ensures Span(s, p) == n
  {
    if n == 0 {
    } else {
      SpanIs(s[1..], p, n - 1);
    }
  }
}
