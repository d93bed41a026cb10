/** The tree translation that the token streamer carries out, and the theorem that it does. */
module GlTranslation {
  import opened Tokens
  import opened Expressions
  import opened GlStream
  import opened Options

  // ---- the translation of a tree ----

  function Rename(name: string): string {
    match GlslType(name)
    case Some(t) => t
    case None =>
      match GlslFunction(name)
      case Some(f) => f
      case None => name
  }

  /** HLSL expression to GLSL expression. */
  function Translate(env: Env, e: Expr): Expr
    decreases e, 1
  {
    match e
    case Atom(_) => e
    case Paren(x) => Paren(Translate(env, x))
    case Call(f, args) =>
      var ts := TranslateArgs(env, args);
      if f == "mul" && |args| == 2 then Product(ts[0], ts[1])
      else if f == "mad" && |args| == 3 then ProductSum(ts[0], ts[1], ts[2])
      else if f == "saturate" && |args| == 1 then Call("clamp", [ts[0], Atom(Num1("0.0")), Atom(Num1("1.0"))])
      else Call(Rename(f), ts)
    case Method(o, m, args) =>
      if IsTextureCall(env, o, m, args) then
        var (call, sampled) := TextureCall(TextureParam(env, o.tok.text).value, m).value;
        Call(call, [o] + if sampled then TranslateArgs(env, args)[1..] else TranslateArgs(env, args))
      else Method(Translate(env, o), m, TranslateArgs(env, args))
    case Member(o, m) => Member(Translate(env, o), m)
    case Index(a, i) => Index(Translate(env, a), Translate(env, i))
    case Unary(op, x) => Unary(op, Translate(env, x))
    case Binary(op, l, r) => Binary(op, Translate(env, l), Translate(env, r))
    case Cond(t, y, n) => Cond(Translate(env, t), Translate(env, y), Translate(env, n))
  }

  function TranslateArgs(env: Env, args: seq<Expr>): (ts: seq<Expr>)
    ensures |ts| == |args|
    decreases args, 0
  {
    if args == [] then [] else [Translate(env, args[0])] + TranslateArgs(env, args[1..])
  }

  function Product(x: Expr, y: Expr): Expr {
    Paren(Binary(Times, Paren(x), Paren(y)))
  }

  function ProductSum(x: Expr, y: Expr, z: Expr): Expr {
    Paren(Binary(Plus, Binary(Times, Paren(x), Paren(y)), Paren(z)))
  }

  predicate IsTextureCall(env: Env, o: Expr, m: string, args: seq<Expr>) {
    && o.Atom? && o.tok.kind.Name?
    && TextureParam(env, o.tok.text).Some?
    && TextureCall(TextureParam(env, o.tok.text).value, m).Some?
    && if TextureCall(TextureParam(env, o.tok.text).value, m).value.1
       then 2 <= |args| && args[0].Atom? && args[0].tok.kind.Name? && args[0].tok.text in env.samplers
       else 1 <= |args|
  }

  /** The sampler assignments a translation makes, in order. */
  function Binds(env: Env, e: Expr): seq<(string, nat)>
    decreases e, 1
  {
    match e
    case Atom(_) => []
    case Paren(x) => Binds(env, x)
    case Call(_, args) => BindsArgs(env, args)
    case Method(o, m, args) =>
      if IsTextureCall(env, o, m, args) then
        if TextureCall(TextureParam(env, o.tok.text).value, m).value.1
        then [(o.tok.text, SamplerIndex(env, args[0].tok.text))] + BindsArgs(env, args[1..])
        else BindsArgs(env, args)
      else Binds(env, o) + BindsArgs(env, args)
    case Member(o, _) => Binds(env, o)
    case Index(a, i) => Binds(env, a) + Binds(env, i)
    case Unary(_, x) => Binds(env, x)
    case Binary(_, l, r) => Binds(env, l) + Binds(env, r)
    case Cond(t, y, n) => Binds(env, t) + (Binds(env, y) + Binds(env, n))
  }

  function BindsArgs(env: Env, args: seq<Expr>): seq<(string, nat)>
    decreases args, 0
  {
    if args == [] then [] else Binds(env, args[0]) + BindsArgs(env, args[1..])
  }

  function SamplerIndex(env: Env, name: string): nat
    requires name in env.samplers
  {
    FindSampler(env.samplers, name).value
  }

  // ---- the expressions the shader language has ----

  predicate PlainName(n: string) {
    n !in DELIMITERS && GlslType(n).None? && GlslFunction(n).None? && !IsExpanded(n)
  }

  /** The printed expression begins with an opening parenthesis. */
  predicate LeadParen(e: Expr) {
    match e
    case Paren(_) => true
    case Method(o, _, _) => LeadParen(o)
    case Member(o, _) => LeadParen(o)
    case Index(a, _) => LeadParen(a)
    case Binary(_, l, _) => LeadParen(l)
    case Cond(t, _, _) => LeadParen(t)
    case _ => false
  }

  predicate BareTexture(env: Env, e: Expr) {
    e.Atom? && e.tok.kind.Name? && TextureParam(env, e.tok.text).Some?
  }

  /** The printed expression ends in the bare name of a texture, or in a member called like one. */
  predicate EndsBare(env: Env, e: Expr) {
    match e
    case Atom(_) => BareTexture(env, e)
    case Member(_, m) => TextureParam(env, m).Some?
    case Unary(_, x) => EndsBare(env, x)
    case Binary(_, _, r) => EndsBare(env, r)
    case Cond(_, _, n) => EndsBare(env, n)
    case _ => false
  }

  /** A well-formed HLSL expression: intrinsics called with their number of arguments, texture
      methods on textures, fields not named like an intrinsic, and no fields of a texture's name. */
  predicate Hlsl(env: Env, e: Expr) {
    match e
    case Atom(t) =>
      (t.kind.Num? || t.kind.Str? || (t.kind.Name? && PlainName(t.text))) && t.text !in DELIMITERS
    case Paren(x) => Hlsl(env, x)
    case Call(f, args) =>
      && (forall a :: a in args ==> Hlsl(env, a))
      && f !in DELIMITERS && f != "sincos" && (IsExpanded(f) || TextureParam(env, f).None?)
      && (f == "mul" ==> |args| == 2)
      && (f == "mad" ==> |args| == 3)
      && (f == "saturate" ==> |args| == 1)
    case Method(o, m, args) =>
      IsTextureCall(env, o, m, args) && PlainName(o.tok.text) && forall a :: a in args ==> Hlsl(env, a)
    case Member(o, m) => Hlsl(env, o) && !EndsBare(env, o) && PlainName(m)
    case Index(a, i) => Hlsl(env, a) && Hlsl(env, i)
    case Unary(_, x) => Hlsl(env, x)
    case Binary(_, l, r) => Hlsl(env, l) && Hlsl(env, r)
    case Cond(t, y, n) => Hlsl(env, t) && Hlsl(env, y) && Hlsl(env, n)
  }

  // ---- streaming a printed tree ----

  const ENDS: set<string> := {",", ")", "}"}

  /** A continuation: proper tokens up to the end token. */
  predicate Tail(k: seq<Token>) {
    IsStream(k) && NoSpace(k)
  }

  lemma {:induction false} TailCons(t: Token, k: seq<Token>)
    requires Tail(k) && !IsSpace(t)
    ensures Tail([t] + k)
  {
  }

  lemma {:induction false} NextOfCons(t: Token, k: seq<Token>)
    requires Tail(k) && !IsSpace(t) && !t.kind.End?
    ensures NextToken([t] + k) == k
  {
    assert ([t] + k)[1..] == k;
  }

  lemma {:induction false} TailOp(op: BinaryOp, k: seq<Token>)
    requires Tail(k)
    ensures Tail(OpTokens(op) + k)
  {
  }

  lemma {:induction false} PrintTail(e: Expr, k: seq<Token>)
    requires WellFormed(e) && Tail(k)
    ensures Tail(Print(e, k))
    decreases e, 1
  {
    hide NoSpace;
    match e
    case Atom(t) => TailCons(t, k);
    case Paren(x) =>
      TailCons(RPAREN, k);
      PrintTail(x, [RPAREN] + k);
      TailCons(LPAREN, Print(x, [RPAREN] + k));
    case Call(f, args) =>
      TailCons(RPAREN, k);
      PrintArgsTail(args, [RPAREN] + k);
      TailTwo(Ident(f), LPAREN, PrintArgs(args, [RPAREN] + k));
    case Method(o, m, args) =>
      TailCons(RPAREN, k);
      PrintArgsTail(args, [RPAREN] + k);
      var w := PrintArgs(args, [RPAREN] + k);
      TailTwo(Ident(m), LPAREN, w);
      TailCons(DOT, [Ident(m), LPAREN] + w);
      assert [DOT] + ([Ident(m), LPAREN] + w) == [DOT, Ident(m), LPAREN] + w;
      PrintTail(o, [DOT, Ident(m), LPAREN] + w);
    case Member(o, m) =>
      TailTwo(DOT, Ident(m), k);
      PrintTail(o, [DOT, Ident(m)] + k);
    case Index(a, i) =>
      TailCons(RBRACKET, k);
      PrintTail(i, [RBRACKET] + k);
      TailCons(LBRACKET, Print(i, [RBRACKET] + k));
      PrintTail(a, [LBRACKET] + Print(i, [RBRACKET] + k));
    case Unary(op, x) =>
      PrintTail(x, k);
      TailCons(UnaryToken(op), Print(x, k));
    case Binary(op, l, r) =>
      PrintTail(r, k);
      TailOp(op, Print(r, k));
      PrintTail(l, OpTokens(op) + Print(r, k));
    case Cond(t, y, n) =>
      PrintTail(n, k);
      TailCons(Sym(":"), Print(n, k));
      PrintTail(y, [Sym(":")] + Print(n, k));
      TailCons(Sym("?"), Print(y, [Sym(":")] + Print(n, k)));
      PrintTail(t, [Sym("?")] + Print(y, [Sym(":")] + Print(n, k)));
  }

  lemma {:induction false} TailTwo(t: Token, u: Token, k: seq<Token>)
    requires Tail(k) && !IsSpace(t) && !IsSpace(u)
    ensures Tail([t, u] + k)
  {
    TailCons(u, k);
    TailCons(t, [u] + k);
    assert [t] + ([u] + k) == [t, u] + k;
  }

  lemma {:induction false} PrintArgsTail(args: seq<Expr>, k: seq<Token>)
    requires (forall a :: a in args ==> WellFormed(a)) && Tail(k)
    ensures Tail(PrintArgs(args, k))
    decreases args, 0
  {
    if |args| == 1 {
      PrintTail(args[0], k);
    } else if |args| > 1 {
      PrintArgsTail(args[1..], k);
      PrintTail(args[0], [COMMA] + PrintArgs(args[1..], k));
    }
  }

  lemma {:induction false} PrintFirst(env: Env, e: Expr, k: seq<Token>)
    requires WellFormed(e) && Hlsl(env, e)
    ensures Print(e, k) != [] && StartsExpr(Print(e, k)[0])
    ensures Print(e, k)[0] == LPAREN <==> LeadParen(e)
    ensures Print(e, k)[0].text !in {")", ",", "{", "}"}
    decreases e
  {
    match e
    case Method(o, m, args) => PrintFirst(env, o, [DOT, Ident(m), LPAREN] + PrintArgs(args, [RPAREN] + k));
    case Member(o, m) => PrintFirst(env, o, [DOT, Ident(m)] + k);
    case Index(a, i) => PrintFirst(env, a, [LBRACKET] + Print(i, [RBRACKET] + k));
    case Binary(op, l, r) => PrintFirst(env, l, OpTokens(op) + Print(r, k));
    case Cond(t, y, n) => PrintFirst(env, t, [Sym("?")] + Print(y, [Sym(":")] + Print(n, k)));
    case _ =>
  }

  /** r with more text in front. */
  function Put(out: seq<Token>, r: Step): Step {
    r.(out := out + r.out)
  }

  /** A token that is neither a name, a bracket nor the end token is copied. */
  lemma {:induction false} ScanSymbol(env: Env, t: Token, k: seq<Token>, end: string, c: nat)
    requires IsStream(k) && !t.kind.End? && !t.kind.Name? && t != LPAREN && t != LBRACE && t.text != end
    ensures Scan(env, [t] + k, end, c) == Put([t], Scan(env, k, end, c))
  {
    assert ([t] + k)[1..] == k;
  }

  lemma {:induction false} WriteRenamed(env: Env, n: string, k: seq<Token>, c: nat)
    requires Tail(k) && !IsExpanded(n)
    requires TextureParam(env, n).Some? ==> k[0].text != "."
    ensures WriteName(env, [Ident(n)] + k, c) == Step([Ident(n)] + k, [Ident(Rename(n))], c, [])
  {
    hide Contents, GlslType, GlslFunction;
    var s := [Ident(n)] + k;
    NextOfCons(Ident(n), k);
    if GlslType(n).None? && GlslFunction(n).None? && TextureParam(env, n).Some? {
      assert TextureOpening(env, s, TextureParam(env, n).value).None?;
      assert Intrinsic(env, s, c) == GiveUp(s, [], c, []);
    }
    assert [] + [s[0]] == [Ident(n)];
  }

  /** A name that is not expanded is renamed in place. */
  lemma {:induction false} ScanName(env: Env, n: string, k: seq<Token>, end: string, c: nat)
    requires Tail(k) && !IsExpanded(n) && n != end
    requires TextureParam(env, n).Some? ==> k[0].text != "."
    ensures Scan(env, [Ident(n)] + k, end, c) == Put([Ident(Rename(n))], Scan(env, k, end, c))
  {
    var s := [Ident(n)] + k;
    NextOfCons(Ident(n), k);
    assert s[1..] == k;
    WriteRenamed(env, n, k, c);
  }

  lemma {:induction false} ScanBracket(env: Env, t: seq<Token>, end: string, c: nat)
    requires IsStream(t) && (t[0] == LPAREN || t[0] == LBRACE) && t[0].text != end
    ensures var b := Contents(env, t, if t[0] == LBRACE then "}" else ")", c);
            Scan(env, t, end, c) == After(b.out + Emit(b.rest[0]), b.binds, Advance(env, b.rest, end, b.next))
  {
  }

  /** Starting on an opening parenthesis, as every intrinsic does for its first argument. */
  lemma {:induction false} ContentsOpen(env: Env, s: seq<Token>, end: string, c: nat)
    requires IsStream(s)
    ensures IsStream([LPAREN] + s)
    ensures Contents(env, [LPAREN] + s, end, c) == Put([LPAREN], Scan(env, s, end, c))
  {
    assert ([LPAREN] + s)[1..] == s;
  }

  /** Starting on any other token is the same as reaching it in the loop. */
  lemma {:induction false} ContentsIsScan(env: Env, s: seq<Token>, end: string, c: nat)
    requires IsStream(s) && s[0] != LPAREN && s[0] != LBRACE && s[0].text != end
    ensures Contents(env, s, end, c) == Scan(env, s, end, c)
  {
  }

  lemma {:induction false} OneArg(env: Env, e: Expr)
    ensures TranslateArgs(env, [e]) == [Translate(env, e)] && BindsArgs(env, [e]) == Binds(env, e)
  {
    assert [e][1..] == [];
    assert BindsArgs(env, [e]) == Binds(env, e) + [];
  }

  lemma {:induction false} StripSymbols()
    ensures Strip([LPAREN]) == [LPAREN] && Strip([RPAREN]) == [RPAREN]
    ensures Strip([LPAREN, LPAREN]) == [LPAREN, LPAREN] && Strip([RPAREN, RPAREN]) == [RPAREN, RPAREN]
  {
    StripNoSpace([LPAREN, LPAREN]);
    StripNoSpace([RPAREN, RPAREN]);
  }

  lemma {:induction false} PrintThen(e: Expr, m: seq<Token>)
    ensures Print(e, m) == Print(e, []) + m
  {
    PrintAppend(e, [], m);
    assert [] + m == m;
  }

  lemma {:induction false} PrintArgsThen(args: seq<Expr>, m: seq<Token>)
    ensures PrintArgs(args, m) == PrintArgs(args, []) + m
  {
    PrintArgsAppend(args, [], m);
    assert [] + m == m;
  }

  /** The characters of an operator are copied. */
  lemma {:induction false} ScanOp(env: Env, op: BinaryOp, k: seq<Token>, end: string, c: nat)
    requires Tail(k) && end in ENDS
    ensures Tail(OpTokens(op) + k) && (OpTokens(op) + k)[0].text != "."
    ensures Scan(env, OpTokens(op) + k, end, c) == Put(OpTokens(op), Scan(env, k, end, c))
  {
    hide Scan, NoSpace;
    TailOp(op, k);
    var o := OpTokens(op);
    if |o| == 1 {
      ScanSymbol(env, o[0], k, end, c);
      assert o + k == [o[0]] + k;
    } else {
      ScanSymbol(env, o[1], k, end, c);
      TailCons(o[1], k);
      ScanSymbol(env, o[0], [o[1]] + k, end, c);
      assert o + k == [o[0]] + ([o[1]] + k);
      var r := Scan(env, k, end, c);
      assert [o[0]] + ([o[1]] + r.out) == o + r.out;
    }
  }

  // Members, subscripts, operators and conditionals continue an expression on their left.

  predicate Continues(e: Expr) {
    e.Member? || e.Index? || e.Binary? || e.Cond?
  }

  function Leftmost(e: Expr): (l: Expr)
    requires Continues(e)
    ensures l < e
  {
    match e
    case Member(o, _) => o
    case Index(a, _) => a
    case Binary(_, l, _) => l
    case Cond(t, _, _) => t
  }

  /** The tokens after the left part of e, followed by k. */
  function Continuation(e: Expr, k: seq<Token>): seq<Token>
    requires Continues(e)
  {
    match e
    case Member(_, m) => [DOT, Ident(m)] + k
    case Index(_, i) => [LBRACKET] + Print(i, [RBRACKET] + k)
    case Binary(op, _, r) => OpTokens(op) + Print(r, k)
    case Cond(_, y, n) => [Sym("?")] + Print(y, [Sym(":")] + Print(n, k))
  }

  function BindsLater(env: Env, e: Expr): seq<(string, nat)>
    requires Continues(e)
  {
    match e
    case Member(_, _) => []
    case Index(_, i) => Binds(env, i)
    case Binary(_, _, r) => Binds(env, r)
    case Cond(_, y, n) => Binds(env, y) + Binds(env, n)
  }

  lemma {:induction false} ContinuesPrint(env: Env, e: Expr, k: seq<Token>)
    requires Continues(e)
    ensures Print(e, k) == Print(Leftmost(e), Continuation(e, k))
    ensures Continues(Translate(env, e)) && Leftmost(Translate(env, e)) == Translate(env, Leftmost(e))
    ensures Binds(env, e) == Binds(env, Leftmost(e)) + BindsLater(env, e)
  {
    assert e.Member? ==> Binds(env, e.obj) + [] == Binds(env, e.obj);
  }

  lemma {:induction false} BindsAssoc(a: seq<(string, nat)>, b: seq<(string, nat)>, c: seq<(string, nat)>)
    ensures a + (b + c) == a + b + c
  {
  }

  lemma {:induction false} ContinuesTranslated(env: Env, e: Expr, k: seq<Token>)
    requires Continues(e)
    ensures Continues(Translate(env, e))
    ensures Print(Translate(env, e), k) == Print(Translate(env, Leftmost(e)), Continuation(Translate(env, e), k))
  {
  }

  // ---- the expanded intrinsics ----

  lemma {:induction false} IntrinsicIs(env: Env, s: seq<Token>, c: nat)
    requires IsStream(s) && s[0].kind.Name?
    ensures s[0].text == "mul" ==> Intrinsic(env, s, c) == Mul(env, s, c)
    ensures s[0].text == "mad" ==> Intrinsic(env, s, c) == Mad(env, s, c)
    ensures s[0].text == "saturate" ==> Intrinsic(env, s, c) == Saturate(env, s, c)
    ensures s[0].text == "sincos" ==> Intrinsic(env, s, c) == Sincos(env, s, c)
    ensures PlainName(s[0].text) && TextureParam(env, s[0].text).Some?
            ==> Intrinsic(env, s, c) == Texture(env, s, TextureParam(env, s[0].text).value, c)
  {
    hide Mul, Mad, Saturate, Sincos, Texture;
  }

  /** The two tokens every expanded call starts with. */
  lemma {:induction false} CallStarts(env: Env, f: string, s1: seq<Token>, end: string, c: nat)
    requires Tail(s1)
    ensures var s := [Ident(f)] + ([LPAREN] + s1);
            IsStream(s) && NextToken(s) == [LPAREN] + s1 && IsStream([LPAREN] + s1)
            && Contents(env, NextToken(s), end, c) == Put([LPAREN], Scan(env, s1, end, c))
  {
    hide Contents, Scan;
    NextOfCons(Ident(f), [LPAREN] + s1);
    ContentsOpen(env, s1, end, c);
  }

  lemma {:induction false} PrintCall1(f: string, x: Expr, k: seq<Token>)
    ensures Print(Call(f, [x]), k) == [Ident(f)] + ([LPAREN] + Print(x, [RPAREN] + k))
  {
  }

  lemma {:induction false} PrintCall2(f: string, x: Expr, y: Expr, k: seq<Token>)
    ensures Print(Call(f, [x, y]), k) == [Ident(f)] + ([LPAREN] + Print(x, [COMMA] + Print(y, [RPAREN] + k)))
  {
    var m := [RPAREN] + k;
    assert [x, y][1..] == [y];
    assert PrintArgs([y], m) == Print(y, m);
    assert PrintArgs([x, y], m) == Print(x, [COMMA] + Print(y, m));
    assert [Ident(f), LPAREN] + PrintArgs([x, y], m) == [Ident(f)] + ([LPAREN] + PrintArgs([x, y], m));
  }

  lemma {:induction false} PrintCall3(f: string, x: Expr, y: Expr, z: Expr, k: seq<Token>)
    ensures Print(Call(f, [x, y, z]), k)
         == [Ident(f)] + ([LPAREN] + Print(x, [COMMA] + Print(y, [COMMA] + Print(z, [RPAREN] + k))))
  {
    var m := [RPAREN] + k;
    assert [x, y, z][1..] == [y, z] && [y, z][1..] == [z];
    assert PrintArgs([z], m) == Print(z, m);
    assert PrintArgs([y, z], m) == Print(y, [COMMA] + Print(z, m));
    assert PrintArgs([x, y, z], m) == Print(x, [COMMA] + PrintArgs([y, z], m));
    assert [Ident(f), LPAREN] + PrintArgs([x, y, z], m) == [Ident(f)] + ([LPAREN] + PrintArgs([x, y, z], m));
  }

  lemma {:induction false} ArgLists(env: Env, args: seq<Expr>)
    requires 2 <= |args| <= 3
    ensures |args| == 2 ==> TranslateArgs(env, args) == [Translate(env, args[0]), Translate(env, args[1])]
    ensures |args| == 2 ==> BindsArgs(env, args) == Binds(env, args[0]) + Binds(env, args[1])
    ensures |args| == 3 ==>
            TranslateArgs(env, args) == [Translate(env, args[0]), Translate(env, args[1]), Translate(env, args[2])]
    ensures |args| == 3 ==> BindsArgs(env, args) == Binds(env, args[0]) + Binds(env, args[1]) + Binds(env, args[2])
  {
    if |args| == 2 {
      assert args[1..] == [args[1]];
      OneArg(env, args[1]);
    } else {
      assert args[1..] == [args[1], args[2]];
      ArgLists(env, args[1..]);
    }
  }

  lemma {:induction false} StripBetween()
    ensures Strip(BETWEEN) == [RPAREN, Sym("*"), LPAREN]
    ensures Strip(BETWEEN_ADD) == [RPAREN, Sym("+"), LPAREN]
    ensures Strip(CLAMP_TAIL) == [COMMA, Num1("0.0"), COMMA, Num1("1.0"), RPAREN]
  {
    StripAround(RPAREN, Sym("*"), LPAREN);
    StripAround(RPAREN, Sym("+"), LPAREN);
    StripAround(COMMA, Num1("0.0"), COMMA);
    hide Strip;
    var z := [Num1("1.0"), RPAREN];
    assert BETWEEN == [RPAREN, BLANK] + [Sym("*")] + [BLANK, LPAREN];
    assert BETWEEN_ADD == [RPAREN, BLANK] + [Sym("+")] + [BLANK, LPAREN];
    assert CLAMP_TAIL == [COMMA, BLANK] + [Num1("0.0")] + [COMMA, BLANK] + z;
    StripConcat([COMMA, BLANK] + [Num1("0.0")] + [COMMA, BLANK], z);
    StripNoSpace(z);
  }

  lemma {:induction false} StripAround(a: Token, b: Token, c: Token)
    requires !IsSpace(a) && !IsSpace(b) && !IsSpace(c)
    ensures Strip([a, BLANK] + [b] + [BLANK, c]) == [a, b, c]
    ensures Strip([a, BLANK] + [b] + [c, BLANK]) == [a, b, c]
  {
    assert [a, BLANK][1..] == [BLANK] && [c, BLANK][1..] == [BLANK] && [BLANK, c][1..] == [c];
    assert Strip([BLANK]) == [] && Strip([b]) == [b] && Strip([c]) == [c];
    assert Strip([a, BLANK]) == [a] && Strip([BLANK, c]) == [c] && Strip([c, BLANK]) == [c];
    hide Strip;
    StripConcat([a, BLANK] + [b], [BLANK, c]);
    StripConcat([a, BLANK] + [b], [c, BLANK]);
    StripConcat([a, BLANK], [b]);
  }

  lemma {:induction false} PrintProduct(x: Expr, y: Expr, r: seq<Token>)
    ensures Print(Product(x, y), r)
         == [LPAREN] + ([LPAREN] + Print(x, [RPAREN] + ([Sym("*")] + ([LPAREN] + Print(y, [RPAREN] + ([RPAREN] + r))))))
  {
    var k3 := [RPAREN] + r;
    var k2 := OpTokens(Times) + Print(Paren(y), k3);
    assert Print(Binary(Times, Paren(x), Paren(y)), k3) == Print(Paren(x), k2);
  }

  lemma {:induction false} PrintProductSum(x: Expr, y: Expr, z: Expr, r: seq<Token>)
    ensures var k3 := [RPAREN] + ([Sym("+")] + ([LPAREN] + Print(z, [RPAREN] + ([RPAREN] + r))));
            Print(ProductSum(x, y, z), r)
            == [LPAREN] + ([LPAREN] + Print(x, [RPAREN] + ([Sym("*")] + ([LPAREN] + Print(y, k3)))))
  {
    hide Print;
    var k4 := [RPAREN] + r;
    var p := Binary(Times, Paren(x), Paren(y));
    PrintParen(Binary(Plus, p, Paren(z)), r);
    PrintBinary(Plus, p, Paren(z), k4);
    PrintParen(z, k4);
    PrintBinary(Times, Paren(x), Paren(y), [Sym("+")] + Print(Paren(z), k4));
    PrintParen(y, [Sym("+")] + Print(Paren(z), k4));
    PrintParen(x, [Sym("*")] + Print(Paren(y), [Sym("+")] + Print(Paren(z), k4)));
  }

  lemma {:induction false} PrintParen(e: Expr, k: seq<Token>)
    ensures Print(Paren(e), k) == [LPAREN] + Print(e, [RPAREN] + k)
  {
  }

  lemma {:induction false} PrintBinary(op: BinaryOp, l: Expr, r: Expr, k: seq<Token>)
    ensures Print(Binary(op, l, r), k) == Print(l, OpTokens(op) + Print(r, k))
  {
  }

  // ---- texture calls ----

  /** The opening of a printed texture call is recognised. */
  lemma {:induction false} OpeningReads(env: Env, p: Param, m: string, sampler: Option<string>, v: seq<Token>)
    requires Tail(v) && TextureCall(p, m).Some?
    requires sampler.Some? == TextureCall(p, m).value.1
    requires sampler.Some? ==> sampler.value in env.samplers
    ensures TextureOpening(env, [Ident(p.name)] + ([DOT] + ([Ident(m)] + ([LPAREN] + SamplerThen(sampler, v)))), p)
         == Some(Opening([if sampler.Some? then COMMA else LPAREN] + v, TextureCall(p, m).value.0,
                         SamplerBind(env, p.name, sampler)))
  {
    hide NextToken, TextureCall, FindSampler, SkipSpaces;
    var w := SamplerThen(sampler, v);
    NextOfCons(Ident(p.name), [DOT] + ([Ident(m)] + ([LPAREN] + w)));
    NextOfCons(DOT, [Ident(m)] + ([LPAREN] + w));
    NextOfCons(Ident(m), [LPAREN] + w);
    if sampler.Some? {
      SamplerReads(env, p.name, TextureCall(p, m).value.0, sampler.value, v);
    }
  }

  lemma {:induction false} SamplerReads(env: Env, name: string, call: string, sampler: string, v: seq<Token>)
    requires Tail(v) && sampler in env.samplers
    ensures SamplerOpening(env, [LPAREN] + ([Ident(sampler)] + ([COMMA] + v)), name, call)
         == Some(Opening([COMMA] + v, call, [(name, SamplerIndex(env, sampler))]))
  {
    hide NextToken, SkipSpaces;
    NextOfCons(LPAREN, [Ident(sampler)] + ([COMMA] + v));
    NextOfCons(Ident(sampler), [COMMA] + v);
  }

  function SamplerThen(sampler: Option<string>, v: seq<Token>): seq<Token> {
    match sampler
    case None => v
    case Some(n) => [Ident(n)] + ([COMMA] + v)
  }

  function SamplerBind(env: Env, name: string, sampler: Option<string>): seq<(string, nat)>
    requires sampler.Some? ==> sampler.value in env.samplers
  {
    match sampler
    case None => []
    case Some(n) => [(name, SamplerIndex(env, n))]
  }

  /** The tokens of a texture call from its name to its coordinates. */
  function TextureHead(name: string, m: string, sampler: Option<string>, v: seq<Token>): seq<Token> {
    [Ident(name)] + ([DOT] + ([Ident(m)] + ([LPAREN] + SamplerThen(sampler, v))))
  }

  lemma {:induction false} TextureTokens(e: Expr, sampler: Option<string>, k: seq<Token>)
    requires e.Method? && e.obj.Atom? && e.obj.tok.kind.Name?
    requires sampler.Some? ==> 2 <= |e.args| && e.args[0] == Atom(Ident(sampler.value))
    ensures Print(e, k) == TextureHead(e.obj.tok.text, e.fn, sampler,
                                       PrintArgs(if sampler.Some? then e.args[1..] else e.args, [RPAREN] + k))
  {
    var m := [RPAREN] + k;
    var w := PrintArgs(e.args, m);
    if sampler.Some? {
      assert w == Print(e.args[0], [COMMA] + PrintArgs(e.args[1..], m));
    }
    assert e.obj.tok == Ident(e.obj.tok.text);
    assert Print(e, k) == [e.obj.tok] + ([DOT, Ident(e.fn), LPAREN] + w);
    assert [DOT, Ident(e.fn), LPAREN] + w == [DOT] + ([Ident(e.fn)] + ([LPAREN] + w));
  }
}
