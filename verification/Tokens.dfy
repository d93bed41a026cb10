/** The token array the shader front end hands to the GL transpiler
    (libobs/util/cf-lexer.h, libobs/util/cf-parser.h). */
module Tokens {

  datatype Kind = End | Name | Num | SpaceTab | Newline | Str | Other

  datatype Token = Token(kind: Kind, text: string)

  const LPAREN := Token(Other, "(")
  const RPAREN := Token(Other, ")")
  const COMMA := Token(Other, ",")
  const DOT := Token(Other, ".")
  const LBRACE := Token(Other, "{")
  const RBRACE := Token(Other, "}")
  const LBRACKET := Token(Other, "[")
  const RBRACKET := Token(Other, "]")
  const EQUALS := Token(Other, "=")
  const SEMICOLON := Token(Other, ";")
  const BLANK := Token(SpaceTab, " ")

  predicate IsSpace(t: Token) {
    t.kind.SpaceTab? || t.kind.Newline?
  }

  /** A cursor position is modelled by the tokens from it onward; the array ends in an end token. */
  predicate IsStream(s: seq<Token>) {
    |s| > 0 && s[|s| - 1].kind.End?
  }

  const DELIMITERS: set<string> := {"(", ")", "{", "}", ",", "."}

  /** What the lexer guarantees of blank tokens: none of them reads as a delimiter. */
  predicate Lexed(s: seq<Token>) {
    forall i :: 0 <= i < |s| && IsSpace(s[i]) ==> s[i].text !in DELIMITERS
  }

  predicate NoSpace(s: seq<Token>) {
    forall i :: 0 <= i < |s| ==> !IsSpace(s[i])
  }

  function SkipSpaces(s: seq<Token>): (r: seq<Token>)
    requires IsStream(s)
    ensures IsStream(r) && |r| <= |s| && !IsSpace(r[0])
  {
    if IsSpace(s[0]) then SkipSpaces(s[1..]) else s
  }

  /** cf_next_token: step off a proper token, then pass over blanks; never past the end token. */
  function NextToken(s: seq<Token>): (r: seq<Token>)
    requires IsStream(s)
    ensures IsStream(r) && |r| <= |s| && !IsSpace(r[0])
    ensures !IsSpace(s[0]) && !s[0].kind.End? ==> |r| < |s|
  {
    if IsSpace(s[0]) || s[0].kind.End? then SkipSpaces(s) else SkipSpaces(s[1..])
  }

  /** The tokens without the blanks. */
  function Strip(s: seq<Token>): (r: seq<Token>)
    ensures |r| <= |s|
  {
    if s == [] then []
    else if IsSpace(s[0]) then Strip(s[1..])
    else [s[0]] + Strip(s[1..])
  }

  lemma {:induction false} StripIsProper(s: seq<Token>)
    ensures NoSpace(Strip(s))
  {
    if s != [] {
      StripIsProper(s[1..]);
    }
  }

  lemma {:induction false} StripConcat(a: seq<Token>, b: seq<Token>)
    ensures Strip(a + b) == Strip(a) + Strip(b)
  {
    if a == [] {
      assert a + b == b;
    } else {
      assert (a + b)[1..] == a[1..] + b;
      StripConcat(a[1..], b);
    }
  }

  lemma {:induction false} StripNoSpace(s: seq<Token>)
    requires NoSpace(s)
    ensures Strip(s) == s
  {
    if s != [] {
      StripNoSpace(s[1..]);
    }
  }

  /** Proper tokens in front stay in front. */
  lemma {:induction false} StripPrefix(a: seq<Token>, b: seq<Token>)
    requires NoSpace(a)
    ensures Strip(a + b) == a + Strip(b)
  {
    StripNoSpace(a);
    StripConcat(a, b);
  }

  lemma {:induction false} StripStream(s: seq<Token>)
    requires IsStream(s)
    ensures IsStream(Strip(s))
    ensures !IsSpace(s[0]) ==> Strip(s)[0] == s[0]
  {
    if |s| > 1 {
      StripStream(s[1..]);
    }
  }

  lemma {:induction false} StripSkip(s: seq<Token>)
    requires IsStream(s)
    ensures Strip(SkipSpaces(s)) == Strip(s)
  {
    if IsSpace(s[0]) {
      StripSkip(s[1..]);
    }
  }

  /** Stepping to the next token commutes with dropping the blanks. */
  lemma {:induction false} StripNext(s: seq<Token>)
    requires IsStream(s) && !IsSpace(s[0])
    ensures IsStream(Strip(s))
    ensures Strip(NextToken(s)) == NextToken(Strip(s))
  {
    StripStream(s);
    if !s[0].kind.End? {
      StripSkip(s[1..]);
      StripStream(s[1..]);
      assert Strip(s)[1..] == Strip(s[1..]);
    }
  }

  lemma {:induction false} LexedSkip(s: seq<Token>)
    requires IsStream(s) && Lexed(s)
    ensures Lexed(SkipSpaces(s))
  {
    if IsSpace(s[0]) {
      LexedSkip(s[1..]);
    }
  }

  lemma {:induction false} LexedNext(s: seq<Token>)
    requires IsStream(s) && Lexed(s)
    ensures Lexed(NextToken(s))
  {
    LexedSkip(s);
    if !s[0].kind.End? {
      LexedSkip(s[1..]);
    }
  }
}
