/** Concrete expression trees of the shader language, which HLSL and GLSL share: a printer, the
    operator levels (GLSL 3.30 section 5.1), a parser that reads printed trees back, and evaluation
    under an interpretation of names and operators. */
module Expressions {
  import opened Tokens

  datatype UnaryOp = Negate | Identity | Not | Complement

  datatype BinaryOp =
    | Times | Divide | Modulo | Plus | Minus | ShiftLeft | ShiftRight
    | Less | Greater | LessEqual | GreaterEqual | Equal | NotEqual
    | BitAnd | BitXor | BitOr | And | Or

  /** Expressions with their parentheses kept; Call is a function, intrinsic or constructor call. */
  datatype Expr =
    | Atom(tok: Token)
    | Paren(inner: Expr)
    | Call(fn: string, args: seq<Expr>)
    | Method(obj: Expr, fn: string, args: seq<Expr>)
    | Member(obj: Expr, field: string)
    | Index(arr: Expr, idx: Expr)
    | Unary(uop: UnaryOp, operand: Expr)
    | Binary(op: BinaryOp, left: Expr, right: Expr)
    | Cond(test: Expr, yes: Expr, no: Expr)

  function Sym(text: string): Token { Token(Other, text) }
  function Ident(text: string): Token { Token(Name, text) }

  function UnaryToken(op: UnaryOp): Token {
    match op
    case Negate => Sym("-")
    case Identity => Sym("+")
    case Not => Sym("!")
    case Complement => Sym("~")
  }

  /** The lexer delivers punctuation one character at a time. */
  function OpTokens(op: BinaryOp): (r: seq<Token>) {
    match op
    case Times => [Sym("*")]
    case Divide => [Sym("/")]
    case Modulo => [Sym("%")]
    case Plus => [Sym("+")]
    case Minus => [Sym("-")]
    case ShiftLeft => [Sym("<"), Sym("<")]
    case ShiftRight => [Sym(">"), Sym(">")]
    case Less => [Sym("<")]
    case Greater => [Sym(">")]
    case LessEqual => [Sym("<"), EQUALS]
    case GreaterEqual => [Sym(">"), EQUALS]
    case Equal => [EQUALS, EQUALS]
    case NotEqual => [Sym("!"), EQUALS]
    case BitAnd => [Sym("&")]
    case BitXor => [Sym("^")]
    case BitOr => [Sym("|")]
    case And => [Sym("&"), Sym("&")]
    case Or => [Sym("|"), Sym("|")]
  }

  function Prec(op: BinaryOp): (p: nat)
    ensures 3 <= p <= 12
  {
    match op
    case Times | Divide | Modulo => 12
    case Plus | Minus => 11
    case ShiftLeft | ShiftRight => 10
    case Less | Greater | LessEqual | GreaterEqual => 9
    case Equal | NotEqual => 8
    case BitAnd => 7
    case BitXor => 6
    case BitOr => 5
    case And => 4
    case Or => 3
  }

  function Level(e: Expr): nat {
    match e
    case Unary(_, _) => 15
    case Binary(op, _, _) => Prec(op)
    case Cond(_, _, _) => 2
    case _ => 16
  }

  /** The tree needs no parentheses beyond the ones it carries. */
  predicate WellFormed(e: Expr) {
    match e
    case Atom(t) => t.kind.Name? || t.kind.Num? || t.kind.Str?
    case Paren(x) => WellFormed(x)
    case Call(_, args) => forall a :: a in args ==> WellFormed(a)
    case Method(o, _, args) => WellFormed(o) && Level(o) == 16 && forall a :: a in args ==> WellFormed(a)
    case Member(o, _) => WellFormed(o) && Level(o) == 16
    case Index(a, i) => WellFormed(a) && Level(a) == 16 && WellFormed(i)
    case Unary(_, x) => WellFormed(x) && Level(x) >= 15
    case Binary(op, l, r) => WellFormed(l) && WellFormed(r) && Level(l) >= Prec(op) && Level(r) > Prec(op)
    case Cond(t, y, n) => WellFormed(t) && WellFormed(y) && WellFormed(n) && Level(t) >= 3
  }

  // ---- printing ----

  /** The tokens of e, followed by k. */
  function Print(e: Expr, k: seq<Token>): (r: seq<Token>)
    decreases e, 1
  {
    match e
    case Atom(t) => [t] + k
    case Paren(x) => [LPAREN] + Print(x, [RPAREN] + k)
    case Call(f, args) => [Ident(f), LPAREN] + PrintArgs(args, [RPAREN] + k)
    case Method(o, m, args) => Print(o, [DOT, Ident(m), LPAREN] + PrintArgs(args, [RPAREN] + k))
    case Member(o, m) => Print(o, [DOT, Ident(m)] + k)
    case Index(a, i) => Print(a, [LBRACKET] + Print(i, [RBRACKET] + k))
    case Unary(op, x) => [UnaryToken(op)] + Print(x, k)
    case Binary(op, l, r) => Print(l, OpTokens(op) + Print(r, k))
    case Cond(t, y, n) => Print(t, [Sym("?")] + Print(y, [Sym(":")] + Print(n, k)))
  }

  function PrintArgs(args: seq<Expr>, k: seq<Token>): seq<Token>
    decreases args, 0
  {
    if args == [] then k
    else if |args| == 1 then Print(args[0], k)
    else Print(args[0], [COMMA] + PrintArgs(args[1..], k))
  }

  // ---- parsing ----

  datatype Parsed<+T> = NoParse | Parsed(value: T, rest: seq<Token>)

  /** The operator at the front, longest match first. */
  function PeekOp(s: seq<Token>): (r: Parsed<BinaryOp>)
    ensures r.Parsed? ==> |r.rest| < |s|
  {
    if s == [] then NoParse
    else if 1 < |s| && s[0] == Sym("<") && s[1] == Sym("<") then Parsed(ShiftLeft, s[2..])
    else if 1 < |s| && s[0] == Sym(">") && s[1] == Sym(">") then Parsed(ShiftRight, s[2..])
    else if 1 < |s| && s[0] == Sym("<") && s[1] == EQUALS then Parsed(LessEqual, s[2..])
    else if 1 < |s| && s[0] == Sym(">") && s[1] == EQUALS then Parsed(GreaterEqual, s[2..])
    else if 1 < |s| && s[0] == EQUALS && s[1] == EQUALS then Parsed(Equal, s[2..])
    else if 1 < |s| && s[0] == Sym("!") && s[1] == EQUALS then Parsed(NotEqual, s[2..])
    else if 1 < |s| && s[0] == Sym("&") && s[1] == Sym("&") then Parsed(And, s[2..])
    else if 1 < |s| && s[0] == Sym("|") && s[1] == Sym("|") then Parsed(Or, s[2..])
    else if s[0] == Sym("*") then Parsed(Times, s[1..])
    else if s[0] == Sym("/") then Parsed(Divide, s[1..])
    else if s[0] == Sym("%") then Parsed(Modulo, s[1..])
    else if s[0] == Sym("+") then Parsed(Plus, s[1..])
    else if s[0] == Sym("-") then Parsed(Minus, s[1..])
    else if s[0] == Sym("<") then Parsed(Less, s[1..])
    else if s[0] == Sym(">") then Parsed(Greater, s[1..])
    else if s[0] == Sym("&") then Parsed(BitAnd, s[1..])
    else if s[0] == Sym("^") then Parsed(BitXor, s[1..])
    else if s[0] == Sym("|") then Parsed(BitOr, s[1..])
    else NoParse
  }

  function PeekUnary(s: seq<Token>): (r: Parsed<UnaryOp>)
    ensures r.Parsed? ==> |r.rest| < |s|
  {
    if s == [] then NoParse
    else if s[0] == Sym("-") then Parsed(Negate, s[1..])
    else if s[0] == Sym("+") then Parsed(Identity, s[1..])
    else if s[0] == Sym("!") then Parsed(Not, s[1..])
    else if s[0] == Sym("~") then Parsed(Complement, s[1..])
    else NoParse
  }

  function Expect(s: seq<Token>, t: Token): (r: Parsed<()>)
    ensures r.Parsed? ==> |r.rest| < |s|
  {
    if s != [] && s[0] == t then Parsed((), s[1..]) else NoParse
  }

  function ParseExpr(s: seq<Token>): (r: Parsed<Expr>)
    ensures r.Parsed? ==> |r.rest| < |s|
    decreases |s|, 6
  {
    match ParseBinary(s, 3)
    case NoParse => NoParse
    case Parsed(t, s1) =>
      if Expect(s1, Sym("?")).NoParse? then Parsed(t, s1)
      else
        match ParseExpr(s1[1..])
        case NoParse => NoParse
        case Parsed(y, s2) =>
          if Expect(s2, Sym(":")).NoParse? then NoParse
          else
            match ParseExpr(s2[1..])
            case NoParse => NoParse
            case Parsed(n, s3) => Parsed(Cond(t, y, n), s3)
  }

  /** An operator chain whose operators all have level min or more. */
  function ParseBinary(s: seq<Token>, min: nat): (r: Parsed<Expr>)
    ensures r.Parsed? ==> |r.rest| < |s|
    decreases |s|, 5
  {
    match ParseUnary(s)
    case NoParse => NoParse
    case Parsed(e, s1) => MoreBinary(e, s1, min)
  }

  function MoreBinary(lhs: Expr, s: seq<Token>, min: nat): (r: Parsed<Expr>)
    ensures r.Parsed? ==> |r.rest| <= |s|
    decreases |s|, 4
  {
    match PeekOp(s)
    case NoParse => Parsed(lhs, s)
    case Parsed(op, s1) =>
      if Prec(op) < min then Parsed(lhs, s)
      else
        match ParseBinary(s1, Prec(op) + 1)
        case NoParse => NoParse
        case Parsed(rhs, s2) => MoreBinary(Binary(op, lhs, rhs), s2, min)
  }

  function ParseUnary(s: seq<Token>): (r: Parsed<Expr>)
    ensures r.Parsed? ==> |r.rest| < |s|
    decreases |s|, 3
  {
    match PeekUnary(s)
    case Parsed(op, s1) =>
      (match ParseUnary(s1)
       case NoParse => NoParse
       case Parsed(e, s2) => Parsed(Unary(op, e), s2))
    case NoParse => ParsePostfix(s)
  }

  function ParsePostfix(s: seq<Token>): (r: Parsed<Expr>)
    ensures r.Parsed? ==> |r.rest| < |s|
    decreases |s|, 2
  {
    if s == [] then NoParse
    else if s[0] == LPAREN then
      match ParseExpr(s[1..])
      case NoParse => NoParse
      case Parsed(e, s1) =>
        if Expect(s1, RPAREN).NoParse? then NoParse else MorePostfix(Paren(e), s1[1..])
    else if s[0].kind.Name? && 1 < |s| && s[1] == LPAREN then
      match ParseArgs(s[2..])
      case NoParse => NoParse
      case Parsed(args, s1) => MorePostfix(Call(s[0].text, args), s1)
    else if s[0].kind.Name? || s[0].kind.Num? || s[0].kind.Str? then MorePostfix(Atom(s[0]), s[1..])
    else NoParse
  }

  function MorePostfix(e: Expr, s: seq<Token>): (r: Parsed<Expr>)
    ensures r.Parsed? ==> |r.rest| <= |s|
    decreases |s|, 1
  {
    if 1 < |s| && s[0] == DOT && s[1].kind.Name? then
      if 2 < |s| && s[2] == LPAREN then
        match ParseArgs(s[3..])
        case NoParse => NoParse
        case Parsed(args, s1) => MorePostfix(Method(e, s[1].text, args), s1)
      else MorePostfix(Member(e, s[1].text), s[2..])
    else if 0 < |s| && s[0] == LBRACKET then
      match ParseExpr(s[1..])
      case NoParse => NoParse
      case Parsed(i, s1) =>
        if Expect(s1, RBRACKET).NoParse? then NoParse else MorePostfix(Index(e, i), s1[1..])
    else Parsed(e, s)
  }

  /** Call arguments and the closing parenthesis. */
  function ParseArgs(s: seq<Token>): (r: Parsed<seq<Expr>>)
    ensures r.Parsed? ==> |r.rest| < |s|
    decreases |s|, 8
  {
    if Expect(s, RPAREN).Parsed? then Parsed([], s[1..]) else ParseSomeArgs(s)
  }

  function ParseSomeArgs(s: seq<Token>): (r: Parsed<seq<Expr>>)
    ensures r.Parsed? ==> |r.rest| < |s|
    decreases |s|, 7
  {
    match ParseExpr(s)
    case NoParse => NoParse
    case Parsed(e, s1) =>
      if Expect(s1, RPAREN).Parsed? then Parsed([e], s1[1..])
      else if Expect(s1, COMMA).NoParse? then NoParse
      else
        match ParseSomeArgs(s1[1..])
        case NoParse => NoParse
        case Parsed(es, s2) => Parsed([e] + es, s2)
  }

  // ---- the parser reads printed trees back ----

  /** k cannot continue a postfix expression. */
  predicate EndsPostfix(k: seq<Token>) {
    k != [] ==> k[0] != DOT && k[0] != LPAREN && k[0] != LBRACKET
  }

  predicate EndsExpr(k: seq<Token>) {
    EndsPostfix(k) && PeekOp(k).NoParse? && (k != [] ==> k[0] != Sym("?"))
  }

  predicate OpAtMost(k: seq<Token>, p: nat) {
    PeekOp(k).Parsed? ==> Prec(PeekOp(k).value) <= p
  }

  /** Tokens an expression can start with. */
  predicate StartsExpr(t: Token) {
    t.kind.Name? || t.kind.Num? || t.kind.Str? || t == LPAREN
    || t == Sym("-") || t == Sym("+") || t == Sym("!") || t == Sym("~")
  }

  lemma {:induction false} PrintStarts(e: Expr, k: seq<Token>)
    requires WellFormed(e)
    ensures Print(e, k) != [] && StartsExpr(Print(e, k)[0])
    ensures Level(e) == 16 ==> PeekUnary(Print(e, k)).NoParse?
    decreases e
  {
    match e
    case Method(o, m, args) => PrintStarts(o, [DOT, Ident(m), LPAREN] + PrintArgs(args, [RPAREN] + k));
    case Member(o, m) => PrintStarts(o, [DOT, Ident(m)] + k);
    case Index(a, i) => PrintStarts(a, [LBRACKET] + Print(i, [RBRACKET] + k));
    case Binary(op, l, r) => PrintStarts(l, OpTokens(op) + Print(r, k));
    case Cond(t, y, n) => PrintStarts(t, [Sym("?")] + Print(y, [Sym(":")] + Print(n, k)));
    case _ =>
  }

  lemma {:induction false} PeekPrinted(op: BinaryOp, k: seq<Token>)
    requires k != [] && StartsExpr(k[0])
    ensures PeekOp(OpTokens(op) + k) == Parsed(op, k)
    ensures EndsPostfix(OpTokens(op) + k)
  {
    OperandStarts(k[0]);
    hide StartsExpr;
    if |OpTokens(op)| == 1 {
      PeekOne(op, k);
    } else {
      PeekTwo(op, k);
    }
  }

  lemma {:induction false} PeekOne(op: BinaryOp, k: seq<Token>)
    requires |OpTokens(op)| == 1
    requires k != [] && k[0] != Sym("<") && k[0] != Sym(">") && k[0] != EQUALS && k[0] != Sym("&") && k[0] != Sym("|")
    ensures PeekOp(OpTokens(op) + k) == Parsed(op, k)
  {
    var s := OpTokens(op) + k;
    assert s[1..] == k && s[0] == OpTokens(op)[0] && s[1] == k[0];
  }

  lemma {:induction false} PeekTwo(op: BinaryOp, k: seq<Token>)
    requires |OpTokens(op)| == 2
    ensures PeekOp(OpTokens(op) + k) == Parsed(op, k)
  {
    var s := OpTokens(op) + k;
    assert s[2..] == k && s[0] == OpTokens(op)[0] && s[1] == OpTokens(op)[1];
  }

  lemma {:induction false} OperandStarts(t: Token)
    requires StartsExpr(t)
    ensures t != Sym("<") && t != Sym(">") && t != EQUALS && t != Sym("&") && t != Sym("|")
  {
  }

  lemma {:induction false} StepMethod(o: Expr, m: string, args: seq<Expr>, k: seq<Token>)
    requires ParseArgs(PrintArgs(args, [RPAREN] + k)) == Parsed(args, k)
    ensures MorePostfix(o, [DOT, Ident(m), LPAREN] + PrintArgs(args, [RPAREN] + k)) ==
            MorePostfix(Method(o, m, args), k)
  {
    hide ParseExpr, ParseArgs, PrintArgs;
    var s := [DOT, Ident(m), LPAREN] + PrintArgs(args, [RPAREN] + k);
    assert s[3..] == PrintArgs(args, [RPAREN] + k);
  }

  lemma {:induction false} StepMember(o: Expr, m: string, k: seq<Token>)
    requires k == [] || k[0] != LPAREN
    ensures MorePostfix(o, [DOT, Ident(m)] + k) == MorePostfix(Member(o, m), k)
  {
    var s := [DOT, Ident(m)] + k;
    assert s[2..] == k;
  }

  lemma {:induction false} StepIndex(a: Expr, i: Expr, k: seq<Token>)
    requires ParseExpr(Print(i, [RBRACKET] + k)) == Parsed(i, [RBRACKET] + k)
    ensures MorePostfix(a, [LBRACKET] + Print(i, [RBRACKET] + k)) == MorePostfix(Index(a, i), k)
  {
    hide ParseExpr, ParseArgs, Print;
    var s := [LBRACKET] + Print(i, [RBRACKET] + k);
    assert s[1..] == Print(i, [RBRACKET] + k);
    assert ([RBRACKET] + k)[1..] == k;
  }

  lemma {:induction false} StepCall(f: string, args: seq<Expr>, k: seq<Token>)
    requires ParseArgs(PrintArgs(args, [RPAREN] + k)) == Parsed(args, k)
    ensures ParsePostfix(Print(Call(f, args), k)) == MorePostfix(Call(f, args), k)
  {
    hide ParseExpr, MorePostfix, ParseArgs;
    assert Print(Call(f, args), k)[2..] == PrintArgs(args, [RPAREN] + k);
  }

  lemma {:induction false} StepParen(x: Expr, k: seq<Token>)
    requires ParseExpr(Print(x, [RPAREN] + k)) == Parsed(x, [RPAREN] + k)
    ensures ParsePostfix(Print(Paren(x), k)) == MorePostfix(Paren(x), k)
  {
    hide ParseExpr, MorePostfix, ParseArgs;
    assert Print(Paren(x), k)[1..] == Print(x, [RPAREN] + k);
    assert ([RPAREN] + k)[1..] == k;
  }

  lemma {:induction false} StepAtom(t: Token, k: seq<Token>)
    requires WellFormed(Atom(t)) && (k == [] || k[0] != LPAREN)
    ensures ParsePostfix(Print(Atom(t), k)) == MorePostfix(Atom(t), k)
  {
    hide ParseExpr, MorePostfix, ParseArgs;
    assert ([t] + k)[1..] == k;
  }

  lemma {:induction false} PostfixReads(e: Expr, k: seq<Token>)
    requires WellFormed(e) && Level(e) == 16
    requires e.Atom? || e.Member? ==> k == [] || k[0] != LPAREN
    ensures ParsePostfix(Print(e, k)) == MorePostfix(e, k)
    decreases e, 1
  {
    hide ParseExpr, ParseArgs, ParsePostfix, MorePostfix, PeekOp;
    PeekNothing(RPAREN, k);
    PeekNothing(RBRACKET, k);
    if e.Atom? {
      StepAtom(e.tok, k);
    } else if e.Paren? {
      ExprReads(e.inner, [RPAREN] + k);
      StepParen(e.inner, k);
    } else if e.Call? {
      ArgsRead(e.args, k);
      StepCall(e.fn, e.args, k);
    } else if e.Method? {
      PostfixReads(e.obj, [DOT, Ident(e.fn), LPAREN] + PrintArgs(e.args, [RPAREN] + k));
      ArgsRead(e.args, k);
      StepMethod(e.obj, e.fn, e.args, k);
    } else if e.Member? {
      PostfixReads(e.obj, [DOT, Ident(e.field)] + k);
      StepMember(e.obj, e.field, k);
    } else {
      PostfixReads(e.arr, [LBRACKET] + Print(e.idx, [RBRACKET] + k));
      ExprReads(e.idx, [RBRACKET] + k);
      StepIndex(e.arr, e.idx, k);
    }
  }

  lemma {:induction false} UnaryReads(e: Expr, k: seq<Token>)
    requires WellFormed(e) && Level(e) >= 15 && EndsPostfix(k)
    ensures ParseUnary(Print(e, k)) == Parsed(e, k)
    decreases e, 2
  {
    hide ParsePostfix, ParseExpr, PeekOp;
    if e.Unary? {
      UnaryReads(e.operand, k);
      assert ([UnaryToken(e.uop)] + Print(e.operand, k))[1..] == Print(e.operand, k);
    } else {
      PrintStarts(e, k);
      PostfixReads(e, k);
    }
  }

  lemma {:induction false} BinaryReads(e: Expr, k: seq<Token>, min: nat)
    requires WellFormed(e) && 3 <= min <= Level(e) && EndsPostfix(k) && OpAtMost(k, Level(e))
    ensures ParseBinary(Print(e, k), min) == MoreBinary(e, k, min)
    decreases e, 3
  {
    hide ParseUnary, ParseExpr, PeekOp;
    if e.Binary? {
      PrintStarts(e.right, k);
      PeekPrinted(e.op, Print(e.right, k));
      BinaryReads(e.left, OpTokens(e.op) + Print(e.right, k), min);
      BinaryReads(e.right, k, Prec(e.op) + 1);
    } else {
      UnaryReads(e, k);
    }
  }

  /** Tokens that end an operator chain. */
  lemma {:induction false} PeekNothing(t: Token, k: seq<Token>)
    requires t == Sym("?") || t == Sym(":") || t == RPAREN || t == RBRACKET || t == COMMA
    ensures PeekOp([t] + k).NoParse? && EndsPostfix([t] + k)
  {
  }

  lemma {:induction false} StepCond(t: Expr, y: Expr, n: Expr, k: seq<Token>)
    requires var s2 := [Sym(":")] + Print(n, k);
             var s1 := [Sym("?")] + Print(y, s2);
             && ParseBinary(Print(t, s1), 3) == Parsed(t, s1)
             && ParseExpr(Print(y, s2)) == Parsed(y, s2)
             && ParseExpr(Print(n, k)) == Parsed(n, k)
    ensures ParseExpr(Print(Cond(t, y, n), k)) == Parsed(Cond(t, y, n), k)
  {
    hide ParseBinary;
    var s2 := [Sym(":")] + Print(n, k);
    var s1 := [Sym("?")] + Print(y, s2);
    assert s1[1..] == Print(y, s2);
    assert s2[1..] == Print(n, k);
  }

  /** Printing loses nothing: the parser reads a printed expression back as the same tree. */
  lemma {:induction false} ExprReads(e: Expr, k: seq<Token>)
    requires WellFormed(e) && EndsExpr(k)
    ensures ParseExpr(Print(e, k)) == Parsed(e, k)
    decreases e, 4
  {
    hide ParseUnary, ParseBinary, PeekOp;
    if e.Cond? {
      var s2 := [Sym(":")] + Print(e.no, k);
      var s1 := [Sym("?")] + Print(e.yes, s2);
      PeekNothing(Sym("?"), Print(e.yes, s2));
      PeekNothing(Sym(":"), Print(e.no, k));
      BinaryReads(e.test, s1, 3);
      ExprReads(e.yes, s2);
      ExprReads(e.no, k);
      StepCond(e.test, e.yes, e.no, k);
    } else {
      BinaryReads(e, k, 3);
    }
  }

  lemma {:induction false} ArgsRead(args: seq<Expr>, k: seq<Token>)
    requires forall a :: a in args ==> WellFormed(a)
    ensures ParseArgs(PrintArgs(args, [RPAREN] + k)) == Parsed(args, k)
    decreases args, 6
  {
    hide ParseSomeArgs, ParseExpr, PeekOp;
    if args == [] {
      assert ([RPAREN] + k)[1..] == k;
    } else {
      SomeArgsRead(args, k);
      var k' := if |args| == 1 then [RPAREN] + k else [COMMA] + PrintArgs(args[1..], [RPAREN] + k);
      PrintStarts(args[0], k');
    }
  }

  lemma {:induction false} SomeArgsRead(args: seq<Expr>, k: seq<Token>)
    requires args != [] && forall a :: a in args ==> WellFormed(a)
    ensures ParseSomeArgs(PrintArgs(args, [RPAREN] + k)) == Parsed(args, k)
    decreases args, 5
  {
    hide ParseExpr, Print, PeekOp;
    if |args| == 1 {
      PeekNothing(RPAREN, k);
      ExprReads(args[0], [RPAREN] + k);
      assert ([RPAREN] + k)[1..] == k;
      assert args == [args[0]];
    } else {
      var k' := [COMMA] + PrintArgs(args[1..], [RPAREN] + k);
      PeekNothing(COMMA, PrintArgs(args[1..], [RPAREN] + k));
      ExprReads(args[0], k');
      SomeArgsRead(args[1..], k);
      assert k'[1..] == PrintArgs(args[1..], [RPAREN] + k);
      assert args == [args[0]] + args[1..];
    }
  }

  // ---- facts about printing ----

  /** What follows a printed tree is carried along unchanged. */
  lemma {:induction false} PrintAppend(e: Expr, k: seq<Token>, m: seq<Token>)
    ensures Print(e, k + m) == Print(e, k) + m
    decreases e, 1
  {
    match e
    case Atom(t) => assert [t] + (k + m) == [t] + k + m;
    case Paren(x) =>
      assert [RPAREN] + (k + m) == [RPAREN] + k + m;
      PrintAppend(x, [RPAREN] + k, m);
    case Call(f, args) =>
      assert [RPAREN] + (k + m) == [RPAREN] + k + m;
      PrintArgsAppend(args, [RPAREN] + k, m);
    case Method(o, n, args) =>
      assert [RPAREN] + (k + m) == [RPAREN] + k + m;
      PrintArgsAppend(args, [RPAREN] + k, m);
      var a := [DOT, Ident(n), LPAREN];
      assert a + (PrintArgs(args, [RPAREN] + k) + m) == a + PrintArgs(args, [RPAREN] + k) + m;
      PrintAppend(o, a + PrintArgs(args, [RPAREN] + k), m);
    case Member(o, n) =>
      assert [DOT, Ident(n)] + (k + m) == [DOT, Ident(n)] + k + m;
      PrintAppend(o, [DOT, Ident(n)] + k, m);
    case Index(a, i) =>
      assert [RBRACKET] + (k + m) == [RBRACKET] + k + m;
      PrintAppend(i, [RBRACKET] + k, m);
      assert [LBRACKET] + (Print(i, [RBRACKET] + k) + m) == [LBRACKET] + Print(i, [RBRACKET] + k) + m;
      PrintAppend(a, [LBRACKET] + Print(i, [RBRACKET] + k), m);
    case Unary(op, x) =>
      PrintAppend(x, k, m);
    case Binary(op, l, r) =>
      PrintAppend(r, k, m);
      assert OpTokens(op) + (Print(r, k) + m) == OpTokens(op) + Print(r, k) + m;
      PrintAppend(l, OpTokens(op) + Print(r, k), m);
    case Cond(t, y, n) =>
      PrintAppend(n, k, m);
      var s := [Sym(":")] + Print(n, k);
      assert [Sym(":")] + (Print(n, k) + m) == s + m;
      PrintAppend(y, s, m);
      assert [Sym("?")] + (Print(y, s) + m) == [Sym("?")] + Print(y, s) + m;
      PrintAppend(t, [Sym("?")] + Print(y, s), m);
  }

  lemma {:induction false} PrintArgsAppend(args: seq<Expr>, k: seq<Token>, m: seq<Token>)
    ensures PrintArgs(args, k + m) == PrintArgs(args, k) + m
    decreases args, 0
  {
    if |args| == 1 {
      PrintAppend(args[0], k, m);
    } else if |args| > 1 {
      PrintArgsAppend(args[1..], k, m);
      var s := PrintArgs(args[1..], k);
      assert [COMMA] + (s + m) == [COMMA] + s + m;
      PrintAppend(args[0], [COMMA] + s, m);
    }
  }

  // ---- evaluation ----

  /** What a language gives to names, calls and operators, over some value type. */
  datatype Meaning<!V> = Meaning(
    atom: Token -> V,
    call: (string, seq<V>) -> V,
    methodCall: (V, string, seq<V>) -> V,
    member: (V, string) -> V,
    index: (V, V) -> V,
    unary: (UnaryOp, V) -> V,
    binary: (BinaryOp, V, V) -> V,
    cond: (V, V, V) -> V)

  function Eval<V>(e: Expr, m: Meaning<V>): V
    decreases e, 1
  {
    match e
    case Atom(t) => m.atom(t)
    case Paren(x) => Eval(x, m)
    case Call(f, args) => m.call(f, EvalArgs(args, m))
    case Method(o, f, args) => m.methodCall(Eval(o, m), f, EvalArgs(args, m))
    case Member(o, f) => m.member(Eval(o, m), f)
    case Index(a, i) => m.index(Eval(a, m), Eval(i, m))
    case Unary(op, x) => m.unary(op, Eval(x, m))
    case Binary(op, l, r) => m.binary(op, Eval(l, m), Eval(r, m))
    case Cond(t, y, n) => m.cond(Eval(t, m), Eval(y, m), Eval(n, m))
  }

  function EvalArgs<V>(args: seq<Expr>, m: Meaning<V>): (vs: seq<V>)
    ensures |vs| == |args|
    decreases args, 0
  {
    if args == [] then [] else [Eval(args[0], m)] + EvalArgs(args[1..], m)
  }
}
