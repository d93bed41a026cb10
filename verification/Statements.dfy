/** Statements of the shader language, which HLSL and GLSL share, on top of Expressions: a printer, and a parser
    that reads printed statements back. */
module Statements {
  import opened Tokens
  import opened Expressions
  import opened Options

  /** Update is an assignment with an operator, such as +=; Sincos is HLSL's call with two results. */
  datatype Stmt =
    | Assign(target: Expr, value: Expr)
    | Update(op: BinaryOp, target: Expr, value: Expr)
    | Declare(typ: string, name: string, init: Expr)
    | Sincos(angle: Expr, sine: Expr, cosine: Expr)
    | Braces(body: seq<Stmt>)
    | If(test: Expr, yes: Stmt)
    | IfElse(test: Expr, yes: Stmt, no: Stmt)
    | For(first: Stmt, test: Expr, step: Stmt, each: Stmt)
    | Return(result: Expr)

  const IF := Token(Name, "if")
  const ELSE := Token(Name, "else")
  const FOR := Token(Name, "for")
  const RETURN := Token(Name, "return")

  const KEYWORDS: set<string> := {"if", "else", "for", "return"}

  /** What may stand in the header of a for statement. */
  predicate Simple(x: Stmt) {
    x.Assign? || x.Update? || x.Declare? || x.Sincos?
  }

  /** An else behind x would be taken for its own. */
  predicate EndsOpen(x: Stmt) {
    match x
    case If(_, _) => true
    case IfElse(_, _, n) => EndsOpen(n)
    case For(_, _, _, b) => EndsOpen(b)
    case _ => false
  }

  /** The token an expression starts with. */
  function Leading(e: Expr): Token {
    match e
    case Atom(t) => t
    case Paren(_) => LPAREN
    case Call(f, _) => Ident(f)
    case Method(o, _, _) => Leading(o)
    case Member(o, _) => Leading(o)
    case Index(a, _) => Leading(a)
    case Unary(op, _) => UnaryToken(op)
    case Binary(_, l, _) => Leading(l)
    case Cond(t, _, _) => Leading(t)
  }

  /** What may start a statement that assigns to it. */
  predicate Assignable(e: Expr) {
    WellFormed(e) && Level(e) == 16 && Leading(e).text !in KEYWORDS && !(e.Call? && e.fn == "sincos")
  }

  /** The operator of an assignment, from its first character. */
  function UpdateOp(t: Token): Option<BinaryOp> {
    if t == Sym("*") then Some(Times)
    else if t == Sym("/") then Some(Divide)
    else if t == Sym("%") then Some(Modulo)
    else if t == Sym("+") then Some(Plus)
    else if t == Sym("-") then Some(Minus)
    else if t == Sym("&") then Some(BitAnd)
    else if t == Sym("^") then Some(BitXor)
    else if t == Sym("|") then Some(BitOr)
    else None
  }

  predicate Updates(op: BinaryOp) {
    |OpTokens(op)| == 1 && UpdateOp(OpTokens(op)[0]) == Some(op)
  }

  predicate WellFormedStmt(x: Stmt) {
    match x
    case Assign(t, e) => Assignable(t) && WellFormed(e)
    case Update(op, t, e) => Updates(op) && Assignable(t) && WellFormed(e)
    case Declare(typ, _, e) => typ !in KEYWORDS && WellFormed(e)
    case Sincos(a, s, d) => WellFormed(a) && WellFormed(s) && WellFormed(d)
    case Braces(xs) => forall y :: y in xs ==> WellFormedStmt(y)
    case If(t, y) => WellFormed(t) && WellFormedStmt(y)
    case IfElse(t, y, n) => WellFormed(t) && WellFormedStmt(y) && WellFormedStmt(n) && !EndsOpen(y)
    case For(i, t, s, b) =>
      && Simple(i) && WellFormedStmt(i) && WellFormed(t) && Simple(s) && WellFormedStmt(s) && WellFormedStmt(b)
    case Return(e) => WellFormed(e)
  }

  predicate WellFormedStmts(xs: seq<Stmt>) {
    forall x :: x in xs ==> WellFormedStmt(x)
  }

  // ---- printing ----

  /** A simple statement without its semicolon. */
  function PrintSimple(x: Stmt, k: seq<Token>): seq<Token>
    requires Simple(x)
  {
    match x
    case Assign(t, e) => Print(t, [EQUALS] + Print(e, k))
    case Update(op, t, e) => Print(t, OpTokens(op) + ([EQUALS] + Print(e, k)))
    case Declare(typ, n, e) => [Ident(typ)] + ([Ident(n)] + ([EQUALS] + Print(e, k)))
    case Sincos(a, s, d) => Print(Call("sincos", [a, s, d]), k)
  }

  function PrintStmt(x: Stmt, k: seq<Token>): seq<Token>
    requires WellFormedStmt(x)
    decreases x, 1
  {
    match x
    case Braces(xs) => [LBRACE] + PrintStmts(xs, [RBRACE] + k)
    case If(t, y) => [IF] + ([LPAREN] + Print(t, [RPAREN] + PrintStmt(y, k)))
    case IfElse(t, y, n) => [IF] + ([LPAREN] + Print(t, [RPAREN] + PrintStmt(y, [ELSE] + PrintStmt(n, k))))
    case For(i, t, s, b) =>
      [FOR] + ([LPAREN] + PrintSimple(i, [SEMICOLON] + Print(t, [SEMICOLON] +
        PrintSimple(s, [RPAREN] + PrintStmt(b, k)))))
    case Return(e) => [RETURN] + Print(e, [SEMICOLON] + k)
    case _ => PrintSimple(x, [SEMICOLON] + k)
  }

  function PrintStmts(xs: seq<Stmt>, k: seq<Token>): seq<Token>
    requires WellFormedStmts(xs)
    decreases xs, 0
  {
    if xs == [] then k else PrintStmt(xs[0], PrintStmts(xs[1..], k))
  }

  // ---- parsing ----

  predicate StartsWith(s: seq<Token>, t: Token) {
    s != [] && s[0] == t
  }

  /** A declaration with its value, an assignment, or a call of sincos. */
  function ParseSimple(s: seq<Token>): (r: Parsed<Stmt>)
    ensures r.Parsed? ==> |r.rest| < |s|
  {
    if 1 < |s| && s[0].kind.Name? && s[1].kind.Name? then
      if s[0].text in KEYWORDS || !StartsWith(s[2..], EQUALS) then NoParse
      else
        match ParseExpr(s[3..])
        case NoParse => NoParse
        case Parsed(e, rest) => Parsed(Declare(s[0].text, s[1].text, e), rest)
    else
      match ParsePostfix(s)
      case NoParse => NoParse
      case Parsed(t, s1) =>
        if t.Call? && t.fn == "sincos" && |t.args| == 3 then Parsed(Sincos(t.args[0], t.args[1], t.args[2]), s1)
        else if StartsWith(s1, EQUALS) then
          match ParseExpr(s1[1..])
          case NoParse => NoParse
          case Parsed(e, rest) => Parsed(Assign(t, e), rest)
        else if s1 == [] || UpdateOp(s1[0]).None? || !StartsWith(s1[1..], EQUALS) then NoParse
        else
          match ParseExpr(s1[2..])
          case NoParse => NoParse
          case Parsed(e, rest) => Parsed(Update(UpdateOp(s1[0]).value, t, e), rest)
  }

  function ParseStmt(s: seq<Token>): (r: Parsed<Stmt>)
    ensures r.Parsed? ==> |r.rest| < |s|
    decreases |s|, 2
  {
    if s == [] || s[0] == ELSE then NoParse
    else if s[0] == LBRACE then
      match ParseStmts(s[1..])
      case NoParse => NoParse
      case Parsed(xs, s1) => if StartsWith(s1, RBRACE) then Parsed(Braces(xs), s1[1..]) else NoParse
    else if s[0] == IF then ParseIf(s)
    else if s[0] == FOR then ParseFor(s)
    else if s[0] == RETURN then
      match ParseExpr(s[1..])
      case NoParse => NoParse
      case Parsed(e, s1) => if StartsWith(s1, SEMICOLON) then Parsed(Return(e), s1[1..]) else NoParse
    else
      match ParseSimple(s)
      case NoParse => NoParse
      case Parsed(x, s1) => if StartsWith(s1, SEMICOLON) then Parsed(x, s1[1..]) else NoParse
  }

  function ParseIf(s: seq<Token>): (r: Parsed<Stmt>)
    requires StartsWith(s, IF)
    ensures r.Parsed? ==> |r.rest| < |s|
    decreases |s|, 1
  {
    if !StartsWith(s[1..], LPAREN) then NoParse
    else
      match ParseExpr(s[2..])
      case NoParse => NoParse
      case Parsed(t, s1) =>
        if !StartsWith(s1, RPAREN) then NoParse
        else
          match ParseStmt(s1[1..])
          case NoParse => NoParse
          case Parsed(y, s2) =>
            if !StartsWith(s2, ELSE) then Parsed(If(t, y), s2)
            else
              match ParseStmt(s2[1..])
              case NoParse => NoParse
              case Parsed(n, s3) => Parsed(IfElse(t, y, n), s3)
  }

  function ParseFor(s: seq<Token>): (r: Parsed<Stmt>)
    requires StartsWith(s, FOR)
    ensures r.Parsed? ==> |r.rest| < |s|
    decreases |s|, 1
  {
    if !StartsWith(s[1..], LPAREN) then NoParse
    else
      match ParseSimple(s[2..])
      case NoParse => NoParse
      case Parsed(i, s1) =>
        if !StartsWith(s1, SEMICOLON) then NoParse
        else
          match ParseExpr(s1[1..])
          case NoParse => NoParse
          case Parsed(t, s2) =>
            if !StartsWith(s2, SEMICOLON) then NoParse
            else
              match ParseSimple(s2[1..])
              case NoParse => NoParse
              case Parsed(st, s3) =>
                if !StartsWith(s3, RPAREN) then NoParse
                else
                  match ParseStmt(s3[1..])
                  case NoParse => NoParse
                  case Parsed(b, s4) => Parsed(For(i, t, st, b), s4)
  }

  /** Statements up to a closing brace or the end. */
  function ParseStmts(s: seq<Token>): (r: Parsed<seq<Stmt>>)
    ensures r.Parsed? ==> |r.rest| <= |s|
    decreases |s|, 3
  {
    if s == [] || s[0] == RBRACE then Parsed([], s)
    else
      match ParseStmt(s)
      case NoParse => NoParse
      case Parsed(x, s1) =>
        match ParseStmts(s1)
        case NoParse => NoParse
        case Parsed(xs, rest) => Parsed([x] + xs, rest)
  }

  // ---- the parser reads printed statements back ----

  predicate NoElse(k: seq<Token>) {
    !StartsWith(k, ELSE)
  }

  /** Tokens that end an expression: none of them goes on with one. */
  const STOPS: set<Token> := {RPAREN, SEMICOLON, EQUALS}

  lemma {:induction false} Stops(t: Token, k: seq<Token>)
    requires t in STOPS && (t == EQUALS ==> !StartsWith(k, EQUALS))
    ensures EndsExpr([t] + k)
  {
    var s := [t] + k;
    assert t == EQUALS ==> (k == [] || s[1] == k[0]);
  }

  lemma {:induction false} LeadingPrints(e: Expr, k: seq<Token>)
    requires WellFormed(e)
    ensures Print(e, k) != [] && Print(e, k)[0] == Leading(e) && StartsExpr(Leading(e))
    decreases e
  {
    PrintStarts(e, k);
    match e
    case Method(o, m, args) => LeadingPrints(o, [DOT, Ident(m), LPAREN] + PrintArgs(args, [RPAREN] + k));
    case Member(o, m) => LeadingPrints(o, [DOT, Ident(m)] + k);
    case Index(a, i) => LeadingPrints(a, [LBRACKET] + Print(i, [RBRACKET] + k));
    case Binary(op, l, r) => LeadingPrints(l, OpTokens(op) + Print(r, k));
    case Cond(t, y, n) => LeadingPrints(t, [Sym("?")] + Print(y, [Sym(":")] + Print(n, k)));
    case _ =>
  }

  /** No expression starts with two names. */
  lemma {:induction false} OneName(e: Expr, k: seq<Token>)
    requires WellFormed(e) && k != [] && !k[0].kind.Name?
    ensures var s := Print(e, k); s != [] && (s[0].kind.Name? ==> 1 < |s| && !s[1].kind.Name?)
    decreases e
  {
    PrintStarts(e, k);
    match e
    case Atom(t) =>
    case Method(o, m, args) => OneName(o, [DOT, Ident(m), LPAREN] + PrintArgs(args, [RPAREN] + k));
    case Member(o, m) => OneName(o, [DOT, Ident(m)] + k);
    case Index(a, i) => OneName(a, [LBRACKET] + Print(i, [RBRACKET] + k));
    case Binary(op, l, r) =>
      OpStarts(op, Print(r, k));
      OneName(l, OpTokens(op) + Print(r, k));
    case Cond(t, y, n) => OneName(t, [Sym("?")] + Print(y, [Sym(":")] + Print(n, k)));
    case _ =>
  }

  lemma {:induction false} OpStarts(op: BinaryOp, k: seq<Token>)
    ensures OpTokens(op) + k != [] && (OpTokens(op) + k)[0].kind.Other?
  {
  }

  /** An expression, then a token that ends it. */
  lemma {:induction false} ReadsTo(e: Expr, t: Token, k: seq<Token>)
    requires WellFormed(e) && t in STOPS && (t == EQUALS ==> !StartsWith(k, EQUALS))
    ensures ParseExpr(Print(e, [t] + k)) == Parsed(e, [t] + k)
    ensures StartsWith([t] + k, t) && ([t] + k)[1..] == k
  {
    Stops(t, k);
    ExprReads(e, [t] + k);
  }

  lemma {:induction false} SimpleReads(x: Stmt, t: Token, k: seq<Token>)
    requires WellFormedStmt(x) && Simple(x) && (t == SEMICOLON || t == RPAREN)
    ensures ParseSimple(PrintSimple(x, [t] + k)) == Parsed(x, [t] + k)
    ensures var s := PrintSimple(x, [t] + k); s != [] && s[0].text !in KEYWORDS && s[0] !in {LBRACE, RBRACE}
  {
    hide ParseExpr, ParsePostfix, Print, WellFormed;
    match x
    case Assign(a, e) =>
      ReadsTo(e, t, k);
      var m := [EQUALS] + Print(e, [t] + k);
      PlaceReads(a, m);
      assert m[1..] == Print(e, [t] + k);
    case Update(op, a, e) =>
      ReadsTo(e, t, k);
      var m := OpTokens(op) + ([EQUALS] + Print(e, [t] + k));
      PlaceReads(a, m);
      assert m[1..] == [EQUALS] + Print(e, [t] + k) && m[2..] == Print(e, [t] + k);
    case Declare(typ, n, e) =>
      ReadsTo(e, t, k);
      DeclareShape(typ, n, Print(e, [t] + k));
    case Sincos(a, s, d) =>
      var c := Call("sincos", [a, s, d]);
      SincosWellFormed(a, s, d);
      PlaceReads(c, [t] + k);
  }

  /** What stands in front of an assignment, or a call. */
  lemma {:induction false} PlaceReads(e: Expr, k: seq<Token>)
    requires WellFormed(e) && Level(e) == 16 && k != [] && k[0].kind.Other? && EndsPostfix(k)
    ensures ParsePostfix(Print(e, k)) == Parsed(e, k)
    ensures var s := Print(e, k);
            s != [] && s[0] == Leading(e) && StartsExpr(s[0]) && !(1 < |s| && s[0].kind.Name? && s[1].kind.Name?)
  {
    PostfixReads(e, k);
    LeadingPrints(e, k);
    OneName(e, k);
  }

  lemma {:induction false} SincosWellFormed(a: Expr, s: Expr, d: Expr)
    requires WellFormed(a) && WellFormed(s) && WellFormed(d)
    ensures var c := Call("sincos", [a, s, d]); WellFormed(c) && Level(c) == 16
  {
  }

  lemma {:induction false} DeclareShape(typ: string, n: string, k: seq<Token>)
    ensures var s := [Ident(typ)] + ([Ident(n)] + ([EQUALS] + k));
            && 2 < |s| && s[0] == Ident(typ) && s[1] == Ident(n) && StartsWith(s[2..], EQUALS) && s[3..] == k
  {
  }

  /** Something that a list of statements can start with. */
  predicate Begins(s: seq<Token>) {
    s != [] && s[0] != ELSE && s[0] != RBRACE
  }

  lemma {:induction false} StmtBegins(x: Stmt, k: seq<Token>)
    requires WellFormedStmt(x)
    ensures Begins(PrintStmt(x, k))
  {
    if Simple(x) {
      SimpleReads(x, SEMICOLON, k);
    }
  }

  lemma {:induction false} StmtsBegin(xs: seq<Stmt>, k: seq<Token>)
    requires WellFormedStmts(xs) && NoElse(k)
    ensures NoElse(PrintStmts(xs, k))
  {
    if xs != [] {
      StmtBegins(xs[0], PrintStmts(xs[1..], k));
    }
  }

  /** A printed statement is read back as that statement, unless an else behind it is taken for its own. */
  lemma {:induction false} StmtReads(x: Stmt, k: seq<Token>)
    requires WellFormedStmt(x) && (EndsOpen(x) ==> NoElse(k))
    ensures ParseStmt(PrintStmt(x, k)) == Parsed(x, k)
    decreases x, 1
  {
    hide ParseExpr, Print, WellFormed, ParseSimple, PrintSimple;
    match x
    case Braces(xs) =>
      StmtsRead(xs, [RBRACE] + k);
      assert ParseStmts([RBRACE] + k) == Parsed([], [RBRACE] + k) && xs + [] == xs;
      BracesRead(xs, k);
    case If(t, y) =>
      StmtReads(y, k);
      IfReads(t, PrintStmt(y, k));
    case IfElse(t, y, n) =>
      StmtReads(n, k);
      StmtReads(y, [ELSE] + PrintStmt(n, k));
      IfReads(t, PrintStmt(y, [ELSE] + PrintStmt(n, k)));
      assert ([ELSE] + PrintStmt(n, k))[1..] == PrintStmt(n, k);
    case For(i, t, s, b) =>
      StmtReads(b, k);
      ForReads(i, t, s, PrintStmt(b, k));
    case Return(e) =>
      ReadsTo(e, SEMICOLON, k);
      assert ([RETURN] + Print(e, [SEMICOLON] + k))[1..] == Print(e, [SEMICOLON] + k);
    case _ =>
      SimpleReads(x, SEMICOLON, k);
      assert ([SEMICOLON] + k)[1..] == k;
  }

  lemma {:induction false} BracesRead(xs: seq<Stmt>, k: seq<Token>)
    requires WellFormedStmts(xs) && ParseStmts(PrintStmts(xs, [RBRACE] + k)) == Parsed(xs, [RBRACE] + k)
    ensures ParseStmt([LBRACE] + PrintStmts(xs, [RBRACE] + k)) == Parsed(Braces(xs), k)
  {
    var s := PrintStmts(xs, [RBRACE] + k);
    assert ([LBRACE] + s)[1..] == s && ([RBRACE] + k)[1..] == k;
  }

  /** The branch of an if statement is the first statement of what follows its condition. */
  lemma {:induction false} IfReads(t: Expr, s: seq<Token>)
    requires WellFormed(t)
    ensures var q := [IF] + ([LPAREN] + Print(t, [RPAREN] + s));
            ParseStmt(q) == match ParseStmt(s)
                            case NoParse => NoParse
                            case Parsed(y, s2) =>
                              if !StartsWith(s2, ELSE) then Parsed(If(t, y), s2)
                              else match ParseStmt(s2[1..])
                                   case NoParse => NoParse
                                   case Parsed(n, s3) => Parsed(IfElse(t, y, n), s3)
  {
    hide ParseExpr, Print, WellFormed;
    var p := Print(t, [RPAREN] + s);
    var q := [IF] + ([LPAREN] + p);
    assert q[0] == IF && q[1..] == [LPAREN] + p && q[2..] == p;
    ReadsTo(t, RPAREN, s);
    assert ParseStmt(q) == ParseIf(q);
  }

  /** So is the body of a for statement of what follows its header. */
  lemma {:induction false} ForReads(i: Stmt, t: Expr, st: Stmt, s: seq<Token>)
    requires Simple(i) && WellFormedStmt(i) && WellFormed(t) && Simple(st) && WellFormedStmt(st)
    ensures var q := [FOR] + ([LPAREN] + PrintSimple(i, [SEMICOLON] + Print(t, [SEMICOLON] +
                       PrintSimple(st, [RPAREN] + s))));
            ParseStmt(q) == match ParseStmt(s)
                            case NoParse => NoParse
                            case Parsed(b, s4) => Parsed(For(i, t, st, b), s4)
  {
    hide ParseExpr, Print, WellFormed, ParseSimple, PrintSimple;
    var p3 := PrintSimple(st, [RPAREN] + s);
    var p2 := Print(t, [SEMICOLON] + p3);
    var p1 := PrintSimple(i, [SEMICOLON] + p2);
    var q := [FOR] + ([LPAREN] + p1);
    assert q[0] == FOR && q[1..] == [LPAREN] + p1 && q[2..] == p1;
    SimpleReads(i, SEMICOLON, p2);
    ReadsTo(t, SEMICOLON, p3);
    SimpleReads(st, RPAREN, s);
    assert ([SEMICOLON] + p2)[1..] == p2 && ([RPAREN] + s)[1..] == s;
    assert ParseStmt(q) == ParseFor(q);
  }

  /** Printed statements are read back one after the other, whatever comes of the rest. */
  lemma {:induction false} StmtsRead(xs: seq<Stmt>, k: seq<Token>)
    requires WellFormedStmts(xs) && NoElse(k)
    ensures ParseStmts(PrintStmts(xs, k)) == match ParseStmts(k)
                                             case NoParse => NoParse
                                             case Parsed(ys, rest) => Parsed(xs + ys, rest)
    decreases xs, 0
  {
    hide ParseStmt, PrintStmt, WellFormedStmt;
    if xs == [] {
      assert forall ys: seq<Stmt> :: xs + ys == ys;
    } else {
      var m := PrintStmts(xs[1..], k);
      StmtsBegin(xs[1..], k);
      StmtReads(xs[0], m);
      StmtBegins(xs[0], m);
      StmtsRead(xs[1..], k);
      assert forall ys: seq<Stmt> :: [xs[0]] + (xs[1..] + ys) == xs + ys;
    }
  }

  // ---- names ----

  /** The variables an expression reads. */
  function Names(e: Expr): set<string> {
    match e
    case Atom(t) => if t.kind.Name? then {t.text} else {}
    case Paren(x) => Names(x)
    case Call(_, args) => NamesAll(args)
    case Method(o, _, args) => Names(o) + NamesAll(args)
    case Member(o, _) => Names(o)
    case Index(a, i) => Names(a) + Names(i)
    case Unary(_, x) => Names(x)
    case Binary(_, l, r) => Names(l) + Names(r)
    case Cond(t, y, n) => Names(t) + Names(y) + Names(n)
  }

  function NamesAll(args: seq<Expr>): set<string> {
    if args == [] then {} else Names(args[0]) + NamesAll(args[1..])
  }

  lemma {:induction false} NamesOne(x: Expr, more: seq<Expr>)
    ensures NamesAll([x] + more) == Names(x) + NamesAll(more)
  {
    assert ([x] + more)[1..] == more;
  }

  lemma {:induction false} NamesAt(args: seq<Expr>, i: nat)
    requires i < |args|
    ensures Names(args[i]) <= NamesAll(args)
  {
    if i > 0 {
      NamesAt(args[1..], i - 1);
    }
  }

  function Declares(x: Stmt): set<string> {
    if x.Declare? then {x.name} else {}
  }

  function DeclaredIn(xs: seq<Stmt>): set<string> {
    if xs == [] then {} else Declares(xs[0]) + DeclaredIn(xs[1..])
  }
}
