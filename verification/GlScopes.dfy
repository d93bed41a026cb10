/** Where the statements that the streamer writes are a program: a sincos call is three statements, so a branch or a
    loop that consists of one keeps the first and loses the variable the others read
    (libobs-opengl/gl-shaderparser.c:316-358, 525-553). */
module GlScopes {
  import opened Tokens
  import opened Expressions
  import opened Statements
  import opened GlStream
  import opened Options
  import opened GlTranslation
  import opened GlExact
  import opened GlMeaning
  import opened GlBodies
  import opened GlStatements

  // ---- scope ----

  /** A temporary of a sincos call. */
  predicate Internal(n: string) {
    "sincos_var_internal_" <= n
  }

  /** The temporaries among the names are in scope. */
  predicate Held(names: set<string>, scope: set<string>) {
    forall n :: n in names && Internal(n) ==> n in scope
  }

  /** Every temporary is declared where it is read: before it, in the same braces or around them. A branch, a
      loop and its header are scopes of their own. */
  predicate Scoped(x: Stmt, scope: set<string>)
    decreases x, 1
  {
    match x
    case Assign(t, e) => Held(Names(t), scope) && Held(Names(e), scope)
    case Update(_, t, e) => Held(Names(t), scope) && Held(Names(e), scope)
    case Declare(_, _, e) => Held(Names(e), scope)
    case Sincos(a, s, d) => Held(Names(a), scope) && Held(Names(s), scope) && Held(Names(d), scope)
    case Braces(xs) => ScopedAll(xs, scope)
    case If(t, y) => Held(Names(t), scope) && Scoped(y, scope)
    case IfElse(t, y, n) => Held(Names(t), scope) && Scoped(y, scope) && Scoped(n, scope)
    case For(i, t, s, b) =>
      && Scoped(i, scope) && Held(Names(t), scope + Declares(i)) && Scoped(s, scope + Declares(i))
      && Scoped(b, scope + Declares(i))
    case Return(e) => Held(Names(e), scope)
  }

  predicate ScopedAll(xs: seq<Stmt>, scope: set<string>)
    decreases xs, 0
  {
    xs == [] || (Scoped(xs[0], scope) && ScopedAll(xs[1..], scope + Declares(xs[0])))
  }

  /** The source has no names of temporaries. */
  predicate Own(names: set<string>) {
    forall n :: n in names ==> !Internal(n)
  }

  predicate OwnNames(x: Stmt) {
    match x
    case Assign(t, e) => Own(Names(t)) && Own(Names(e))
    case Update(_, t, e) => Own(Names(t)) && Own(Names(e))
    case Declare(_, n, e) => !Internal(n) && Own(Names(e))
    case Sincos(a, s, d) => Own(Names(a)) && Own(Names(s)) && Own(Names(d))
    case Braces(xs) => forall y :: y in xs ==> OwnNames(y)
    case If(t, y) => Own(Names(t)) && OwnNames(y)
    case IfElse(t, y, n) => Own(Names(t)) && OwnNames(y) && OwnNames(n)
    case For(i, t, s, b) => OwnNames(i) && Own(Names(t)) && OwnNames(s) && OwnNames(b)
    case Return(e) => Own(Names(e))
  }

  /** No sincos call is the whole of a branch or of a loop's body, or stands in a header. */
  predicate Braced(x: Stmt) {
    match x
    case Braces(xs) => forall y :: y in xs ==> Braced(y)
    case If(_, y) => !y.Sincos? && Braced(y)
    case IfElse(_, y, n) => !y.Sincos? && !n.Sincos? && Braced(y) && Braced(n)
    case For(i, _, s, b) => !i.Sincos? && !s.Sincos? && !b.Sincos? && Braced(b)
    case _ => true
  }

  lemma {:induction false} NamesTranslate(env: Env, e: Expr)
    requires Hlsl(env, e)
    ensures Names(Translate(env, e)) <= Names(e)
    decreases e, 1
  {
    match e
    case Atom(_) =>
    case Paren(x) => NamesTranslate(env, x);
    case Call(f, args) =>
      NamesTranslateAll(env, args);
      CallNames(env, e);
    case Method(o, m, args) =>
      NamesTranslateAll(env, args);
      MethodNames(env, e);
    case Member(o, _) => NamesTranslate(env, o);
    case Index(a, i) =>
      NamesTranslate(env, a);
      NamesTranslate(env, i);
    case Unary(_, x) => NamesTranslate(env, x);
    case Binary(_, l, r) =>
      NamesTranslate(env, l);
      NamesTranslate(env, r);
    case Cond(t, y, n) =>
      NamesTranslate(env, t);
      NamesTranslate(env, y);
      NamesTranslate(env, n);
  }

  lemma {:induction false} NamesTranslateAll(env: Env, args: seq<Expr>)
    requires forall a :: a in args ==> Hlsl(env, a)
    ensures NamesAll(TranslateArgs(env, args)) <= NamesAll(args)
    decreases args, 0
  {
    if args != [] {
      NamesTranslate(env, args[0]);
      NamesTranslateAll(env, args[1..]);
      assert TranslateArgs(env, args)[1..] == TranslateArgs(env, args[1..]);
    }
  }

  lemma {:induction false} CallNames(env: Env, e: Expr)
    requires e.Call? && Hlsl(env, e)
    ensures Names(Translate(env, e)) <= NamesAll(TranslateArgs(env, e.args))
  {
    var f, ts := e.fn, TranslateArgs(env, e.args);
    if IsExpanded(f) {
      TranslateExpanded(env, e);
      NamesAt(ts, 0);
      if f == "mul" {
        NamesAt(ts, 1);
        ProductNames(ts[0], ts[1], ts[1]);
      } else if f == "mad" {
        NamesAt(ts, 1);
        NamesAt(ts, 2);
        ProductNames(ts[0], ts[1], ts[2]);
      } else {
        ClampNames(ts[0]);
      }
    }
  }

  lemma {:induction false} ProductNames(x: Expr, y: Expr, z: Expr)
    ensures Names(Product(x, y)) == Names(x) + Names(y) && Names(ProductSum(x, y, z)) == Names(x) + Names(y) + Names(z)
  {
    var p := Binary(Times, Paren(x), Paren(y));
    assert Names(Paren(x)) == Names(x) && Names(Paren(y)) == Names(y) && Names(Paren(z)) == Names(z);
    assert Names(p) == Names(x) + Names(y);
    assert Names(Binary(Plus, p, Paren(z))) == Names(p) + Names(z);
  }

  lemma {:induction false} ClampNames(x: Expr)
    ensures Names(Call("clamp", [x, Atom(Num1("0.0")), Atom(Num1("1.0"))])) == Names(x)
  {
    var a, b := Atom(Num1("0.0")), Atom(Num1("1.0"));
    assert [x, a, b] == [x] + ([a] + ([b] + []));
    NamesOne(b, []);
    NamesOne(a, [b] + []);
    NamesOne(x, [a] + ([b] + []));
  }

  lemma {:induction false} MethodNames(env: Env, e: Expr)
    requires e.Method? && Hlsl(env, e) && NamesAll(TranslateArgs(env, e.args)) <= NamesAll(e.args)
    ensures Names(Translate(env, e)) <= Names(e)
  {
    var ts := TranslateArgs(env, e.args);
    var sampled := TextureCall(TextureParam(env, e.obj.tok.text).value, e.fn).value.1;
    NamesOne(e.obj, if sampled then ts[1..] else ts);
    if sampled {
      assert NamesAll(ts[1..]) <= NamesAll(ts);
    }
  }

  lemma {:induction false} OwnTranslates(env: Env, e: Expr, scope: set<string>)
    requires Hlsl(env, e) && Own(Names(e))
    ensures Own(Names(Translate(env, e))) && Held(Names(Translate(env, e)), scope)
  {
    NamesTranslate(env, e);
  }

  /** No temporary from number c on is in scope yet. */
  ghost predicate Unused(scope: set<string>, c: nat) {
    forall d: nat :: c <= d ==> SincosVar(d).text !in scope
  }

  lemma {:induction false} VarsDiffer(c: nat, d: nat)
    ensures SincosVar(c).text == SincosVar(d).text <==> c == d
    ensures Internal(SincosVar(c).text)
  {
    if SincosVar(c).text == SincosVar(d).text {
      SincosVarsDistinct(c, d);
    }
  }

  lemma {:induction false} StillUnused(scope: set<string>, c: nat, n: string, d: nat)
    requires Unused(scope, c) && c <= d && (!Internal(n) || (exists b: nat :: b < d && n == SincosVar(b).text))
    ensures Unused(scope + {n}, d) && Unused(scope, d)
  {
    forall e: nat | d <= e
      ensures SincosVar(e).text !in scope + {n}
    {
      VarsDiffer(e, e);
      if b: nat :| b < d && n == SincosVar(b).text {
        VarsDiffer(b, e);
      }
    }
  }

  lemma {:induction false} SinNames(c: nat)
    ensures Names(Call("sin", [Atom(SincosVar(c))])) == {SincosVar(c).text} == Names(Call("cos", [Atom(SincosVar(c))]))
  {
    NamesOne(Atom(SincosVar(c)), []);
    assert [Atom(SincosVar(c))] + [] == [Atom(SincosVar(c))];
  }

  /** The statements that a simple one turns into: what they declare, and where their temporary is read. */
  lemma {:induction false} SimpleScoped(env: Env, x: Stmt, c: nat, scope: set<string>)
    requires Simple(x) && HlslStmt(env, x) && OwnNames(x)
    ensures var (y, more) := TurnSimple(env, x, c);
            && Scoped(y, scope)
            && Declares(y) == (if x.Declare? then {x.name} else if x.Sincos? then {SincosVar(c).text} else {})
            && (x.Sincos? ==> |more| == 2)
            && forall s :: ScopedAll(more, s) <==> (x.Sincos? ==> SincosVar(c).text in s)
  {
    hide Translate, Hlsl, SincosVar;
    match x
    case Assign(t, e) =>
      OwnTranslates(env, t, scope);
      OwnTranslates(env, e, scope);
    case Update(_, t, e) =>
      OwnTranslates(env, t, scope);
      OwnTranslates(env, e, scope);
    case Declare(typ, n, e) => OwnTranslates(env, e, scope);
    case Sincos(a, s, d) =>
      OwnTranslates(env, a, scope);
      forall s' ensures ScopedAll(TurnSimple(env, x, c).1, s') <==> SincosVar(c).text in s' {
        OwnTranslates(env, s, s');
        OwnTranslates(env, d, s');
        AssignsScoped(Translate(env, s), Translate(env, d), c, s');
      }
  }

  lemma {:induction false} AssignsScoped(s: Expr, d: Expr, c: nat, scope: set<string>)
    requires Held(Names(s), scope) && Held(Names(d), scope)
    ensures var v := Atom(SincosVar(c));
            ScopedAll([Assign(s, Call("sin", [v])), Assign(d, Call("cos", [v]))], scope) <==> SincosVar(c).text in scope
  {
    SinNames(c);
    VarsDiffer(c, c);
    hide SincosVar;
    var v := Atom(SincosVar(c));
    var x, y := Assign(s, Call("sin", [v])), Assign(d, Call("cos", [v]));
    assert [x, y][1..] == [y] && [y][1..] == [];
    assert scope + Declares(x) == scope && scope + Declares(y) == scope;
    assert ScopedAll([y], scope) <==> Scoped(y, scope) && ScopedAll([], scope);
    assert ScopedAll([x, y], scope) <==> Scoped(x, scope) && ScopedAll([y], scope);
  }

  lemma {:induction false} ScopedConcat(a: seq<Stmt>, b: seq<Stmt>, scope: set<string>)
    ensures ScopedAll(a + b, scope) <==> ScopedAll(a, scope) && ScopedAll(b, scope + DeclaredIn(a))
    ensures DeclaredIn(a + b) == DeclaredIn(a) + DeclaredIn(b)
  {
    hide Scoped, Declares;
    if a == [] {
      assert a + b == b && scope + {} == scope;
    } else {
      assert (a + b)[1..] == a[1..] + b && (a + b)[0] == a[0];
      ScopedConcat(a[1..], b, scope + Declares(a[0]));
      assert scope + Declares(a[0]) + DeclaredIn(a[1..]) == scope + DeclaredIn(a);
    }
  }

  lemma {:induction false} AssignsDeclareNothing(xs: seq<Stmt>)
    requires forall x :: x in xs ==> x.Assign?
    ensures DeclaredIn(xs) == {}
  {
    if xs != [] {
      assert xs[0].Assign?;
      AssignsDeclareNothing(xs[1..]);
    }
  }

  /** Names of the source play no part in the scope of assignments that follow. */
  lemma {:induction false} SameTemporaries(xs: seq<Stmt>, scope: set<string>, more: set<string>)
    requires (forall x :: x in xs ==> x.Assign?) && Own(more)
    ensures ScopedAll(xs, scope + more) <==> ScopedAll(xs, scope)
  {
    if xs != [] {
      var x := xs[0];
      assert x.Assign? && Declares(x) == {};
      assert scope + more + Declares(x) == scope + more && scope + Declares(x) == scope;
      HeldMore(Names(x.target), scope, more);
      HeldMore(Names(x.value), scope, more);
      SameTemporaries(xs[1..], scope, more);
    }
  }

  lemma {:induction false} HeldMore(names: set<string>, scope: set<string>, more: set<string>)
    requires Own(more)
    ensures Held(names, scope + more) <==> Held(names, scope)
  {
  }

  /** What a statement turns into, in a scope. */
  ghost predicate TurnsIn(env: Env, x: Stmt, c: nat, scope: set<string>)
    requires WellFormedStmt(x) && Turn(env, x, c).Some?
  {
    var r := Turn(env, x, c).value;
    && (Scoped(r.first, scope) && ScopedAll(r.more, scope + Declares(r.first)) <==> Braced(x))
    && Declares(r.first) == (if x.Declare? then {x.name} else if x.Sincos? then {SincosVar(c).text} else {})
    && (x.Declare? ==> r.more == [])
    && (x.Sincos? ==> r.more != [] && Scoped(r.first, scope) && !ScopedAll(r.more, scope))
    && Unused(scope + Declares(r.first), c + Counted(x))
  }

  /** As the branch of an if statement. */
  lemma {:induction false} BranchScoped(env: Env, y: Stmt, c: nat, scope: set<string>)
    requires WellFormedStmt(y) && Turn(env, y, c).Some? && TurnsIn(env, y, c, scope)
    ensures var r := Turn(env, y, c).value;
            Scoped(r.first, scope) && ScopedAll(r.more, scope) <==> !y.Sincos? && Braced(y)
    ensures Turn(env, y, c).value.more == [] ==> !y.Sincos?
  {
    hide Scoped, Turn;
    var r := Turn(env, y, c).value;
    assert scope + {} == scope;
    if y.Declare? {
      assert ScopedAll([], scope) && ScopedAll([], scope + Declares(r.first));
    }
  }

  /** What a statement turns into is in scope if and only if it is braced. */
  lemma {:induction false} TurnScoped(env: Env, x: Stmt, c: nat, scope: set<string>)
    requires WellFormedStmt(x) && HlslStmt(env, x) && OwnNames(x) && Turn(env, x, c).Some? && Unused(scope, c)
    ensures TurnsIn(env, x, c, scope)
    decreases x, 1
  {
    hide Translate, Hlsl, WellFormed, TurnSimple, SincosVar, Own, TurnsIn;
    match x
    case Braces(xs) =>
      TurnAllScoped(env, xs, c, scope);
      PlainTurns(env, x, c, scope);
    case If(t, y) =>
      TurnScoped(env, y, c, scope);
      OwnTranslates(env, t, scope);
      BranchScoped(env, y, c, scope);
      PlainTurns(env, x, c, scope);
    case IfElse(t, y, n) =>
      TurnScoped(env, y, c, scope);
      LaterUnused(scope, c, c + Counted(y));
      TurnScoped(env, n, c + Counted(y), scope);
      OwnTranslates(env, t, scope);
      BranchScoped(env, y, c, scope);
      BranchScoped(env, n, c + Counted(y), scope);
      assert ScopedAll([], scope);
      PlainTurns(env, x, c, scope);
    case For(i, t, s, b) => ForScoped(env, x, c, scope);
    case Return(e) =>
      OwnTranslates(env, e, scope);
      PlainTurns(env, x, c, scope);
    case _ => SimpleTurnsIn(env, x, c, scope);
  }

  lemma {:induction false} LaterUnused(scope: set<string>, c: nat, d: nat)
    requires Unused(scope, c) && c <= d
    ensures Unused(scope, d)
  {
  }

  /** Of statements that declare nothing there is no more to say. */
  lemma {:induction false} PlainTurns(env: Env, x: Stmt, c: nat, scope: set<string>)
    requires WellFormedStmt(x) && !Simple(x) && Turn(env, x, c).Some? && Unused(scope, c)
    requires var r := Turn(env, x, c).value;
             !r.first.Declare? && (Scoped(r.first, scope) && ScopedAll(r.more, scope) <==> Braced(x))
    ensures TurnsIn(env, x, c, scope)
  {
    hide Scoped, Turn, Braced;
    LaterUnused(scope, c, c + Counted(x));
    assert scope + {} == scope;
  }

  lemma {:induction false} SimpleTurnsIn(env: Env, x: Stmt, c: nat, scope: set<string>)
    requires Simple(x) && WellFormedStmt(x) && HlslStmt(env, x) && OwnNames(x) && Unused(scope, c)
    ensures TurnsIn(env, x, c, scope)
  {
    hide Translate, Hlsl, WellFormed, TurnSimple, SincosVar, Own;
    SimpleScoped(env, x, c, scope);
    if x.Declare? {
      SimpleOnce(env, x, c);
      StillUnused(scope, c, x.name, c);
    } else if x.Sincos? {
      StillUnused(scope, c, SincosVar(c).text, c + 1);
    } else {
      SimpleOnce(env, x, c);
      assert scope + {} == scope;
    }
  }

  lemma {:induction false} ForScoped(env: Env, x: Stmt, c: nat, scope: set<string>)
    requires x.For? && WellFormedStmt(x) && HlslStmt(env, x) && OwnNames(x) && Turn(env, x, c).Some?
    requires Unused(scope, c)
    ensures TurnsIn(env, x, c, scope)
    decreases x, 0
  {
    hide Translate, Hlsl, WellFormed, TurnSimple, SincosVar, Own, TurnsIn, HlslStmt, WellFormedStmt;
    var i, t, s, b := x.first, x.test, x.step, x.each;
    ForParts(env, x);
    var r := Turn(env, b, c).value;
    var inner := scope + Declares(TurnSimple(env, i, c).0);
    SimpleScoped(env, i, c, scope);
    SimpleScoped(env, s, c, inner);
    OwnTranslates(env, t, inner);
    OwnDeclares(i);
    if i.Declare? {
      StillUnused(scope, c, i.name, c);
    } else {
      assert inner == scope;
    }
    TurnScoped(env, b, c, inner);
    BranchScoped(env, b, c, inner);
    SameTemporaries(r.more, scope, Declares(TurnSimple(env, i, c).0));
    var f := For(TurnSimple(env, i, c).0, Translate(env, t), TurnSimple(env, s, c).0, r.first);
    assert Turn(env, x, c).value == Turned(f, r.more);
    assert Scoped(f, scope) <==> Scoped(r.first, inner);
    PlainTurns(env, x, c, scope);
  }

  lemma {:induction false} ForParts(env: Env, x: Stmt)
    requires x.For? && WellFormedStmt(x) && HlslStmt(env, x) && OwnNames(x)
    ensures var i, t, s, b := x.first, x.test, x.step, x.each;
            && Simple(i) && WellFormedStmt(i) && HlslStmt(env, i) && OwnNames(i) && Hlsl(env, t) && Own(Names(t))
            && Simple(s) && WellFormedStmt(s) && HlslStmt(env, s) && OwnNames(s)
            && WellFormedStmt(b) && HlslStmt(env, b) && OwnNames(b)
  {
  }

  lemma {:induction false} OwnDeclares(i: Stmt)
    requires OwnNames(i)
    ensures i.Declare? ==> !Internal(i.name) && Own({i.name})
    ensures Own({})
  {
  }

  predicate BracedAll(xs: seq<Stmt>) {
    forall x :: x in xs ==> Braced(x)
  }

  predicate OwnNamesAll(xs: seq<Stmt>) {
    forall x :: x in xs ==> OwnNames(x)
  }

  lemma {:induction false} TurnAllScoped(env: Env, xs: seq<Stmt>, c: nat, scope: set<string>)
    requires HlslStmts(env, xs) && OwnNamesAll(xs) && TurnAll(env, xs, c).Some? && Unused(scope, c)
    ensures ScopedAll(TurnAll(env, xs, c).value, scope) <==> BracedAll(xs)
    decreases xs, 0
  {
    hide WellFormedStmt, HlslStmt, OwnNames, Turn, Scoped, Braced, Declares, SincosVar;
    if xs != [] {
      var n := c + Counted(xs[0]);
      var r, ys := Turn(env, xs[0], c).value, TurnAll(env, xs[1..], n).value;
      TurnScoped(env, xs[0], c, scope);
      var d := Declares(r.first);
      TurnAllScoped(env, xs[1..], n, scope + d);
      AssignsDeclareNothing(r.more);
      assert [r.first][1..] == [] && DeclaredIn([r.first]) == d + {} == d;
      assert ScopedAll([r.first], scope) <==> Scoped(r.first, scope) && ScopedAll([], scope + d);
      ScopedConcat([r.first], r.more, scope);
      ScopedConcat([r.first] + r.more, ys, scope);
      assert d + {} == d;
      assert BracedAll(xs) <==> Braced(xs[0]) && BracedAll(xs[1..]);
    }
  }

  /** Braced statements always turn into statements. */
  lemma {:induction false} BracedTurns(env: Env, x: Stmt, c: nat)
    requires WellFormedStmt(x) && Braced(x)
    ensures Turn(env, x, c).Some? && (!x.Sincos? ==> Turn(env, x, c).value.more == [])
    decreases x, 1
  {
    match x
    case Braces(xs) => BracedAllTurn(env, xs, c);
    case If(_, y) => BracedTurns(env, y, c);
    case IfElse(_, y, n) =>
      BracedTurns(env, y, c);
      BracedTurns(env, n, c + Counted(y));
    case For(_, _, _, b) => BracedTurns(env, b, c);
    case _ =>
  }

  lemma {:induction false} BracedAllTurn(env: Env, xs: seq<Stmt>, c: nat)
    requires WellFormedStmts(xs) && BracedAll(xs)
    ensures TurnAll(env, xs, c).Some?
    decreases xs, 0
  {
    if xs != [] {
      BracedTurns(env, xs[0], c);
      BracedAllTurn(env, xs[1..], c + Counted(xs[0]));
    }
  }

  /** The text is a list of statements in which every temporary is in scope. */
  predicate Compiles(p: Parsed<seq<Stmt>>) {
    p.Parsed? && p.rest == [] && ScopedAll(p.value, {})
  }

  lemma {:induction false} CompilesExact(env: Env, xs: seq<Stmt>, c: nat)
    requires HlslStmts(env, xs) && OwnNamesAll(xs)
    ensures Compiles(ParseStmts(WriteStmts(env, xs, c, []))) <==> BracedAll(xs)
    ensures BracedAll(xs) ==>
              && TurnAll(env, xs, c).Some?
              && ParseStmts(WriteStmts(env, xs, c, [])) == Parsed(TurnAll(env, xs, c).value, [])
  {
    BodyReads(env, xs, c);
    if BracedAll(xs) {
      BracedAllTurn(env, xs, c);
    }
    if TurnAll(env, xs, c).Some? {
      TurnAllScoped(env, xs, c, {});
    }
  }

  /** Whole bodies, from token stream to program. Take any layout, blanks included, of the tokens of a body that
      settles. They parse as its statements; and what the streamer writes for them parses as a program if and only
      if no sincos call is the whole of a branch or of a loop's body, or stands in a header. */
  lemma {:induction false} BodyCompiles(env: Env, s: seq<Token>, xs: seq<Stmt>, k: seq<Token>, c: nat)
    requires IsStream(s) && Lexed(s) && !IsSpace(s[0]) && Tail(k) && KeywordsFree(env)
    requires HlslStmts(env, xs) && OwnNamesAll(xs) && BodySettles(env, ItemsOfAll(xs))
    requires Strip(s) == [LBRACE] + PrintStmts(xs, [RBRACE] + k)
    ensures ParseStmts(Strip(s)[1..]) == Parsed(xs, [RBRACE] + k)
    ensures var q := Contents(env, s, "}", c);
            && Strip(q.rest) == [RBRACE] + k && q.next == c + CountedAll(xs)
            && Strip(q.out) == [LBRACE] + WriteStmts(env, xs, c, [])
            && (Compiles(ParseStmts(Strip(q.out)[1..])) <==> BracedAll(xs))
  {
    hide Strip, Contents, PrintStmts, WriteStmts, ItemsOfAll, BodySettles, Lexed, CountedAll;
    var items := ItemsOfAll(xs);
    ItemsHlslAll(env, xs);
    ItemsPrintAll(xs, [RBRACE] + k);
    PrintBlock(items, k);
    assert HlslItem(env, Block(items)) by { BlockHlsl(env, items); }
    FunctionBody(env, s, items, k, c);
    ShownStmts(env, xs, c, []);
    assert Shown(env, items, c, []) == PrintItems(TranslateItems(env, items, c), []);
    CompilesExact(env, xs, c);
    var w, p := WriteStmts(env, xs, c, []), PrintStmts(xs, [RBRACE] + k);
    assert ([LBRACE] + w)[1..] == w && ([LBRACE] + p)[1..] == p;
    BodyParses(xs, k);
  }

  lemma {:induction false} BlockHlsl(env: Env, items: seq<Item>)
    requires HlslItems(env, items)
    ensures HlslItem(env, Block(items))
  {
  }

  lemma {:induction false} BodyParses(xs: seq<Stmt>, k: seq<Token>)
    requires WellFormedStmts(xs)
    ensures ParseStmts(PrintStmts(xs, [RBRACE] + k)) == Parsed(xs, [RBRACE] + k)
  {
    StmtsRead(xs, [RBRACE] + k);
    assert ParseStmts([RBRACE] + k) == Parsed([], [RBRACE] + k) && xs + [] == xs;
  }

  /** The failing input: if (t) sincos(a, s, d); declares the temporary under the condition, and assigns s and d
      whatever it is, from a variable that is not there. */
  lemma {:induction false} UnbracedSincos(env: Env, t: Expr, a: Expr, s: Expr, d: Expr, c: nat)
    requires var x := If(t, Sincos(a, s, d)); HlslStmts(env, [x]) && OwnNamesAll([x])
    ensures var v := Atom(SincosVar(c));
            var p := ParseStmts(WriteStmts(env, [If(t, Sincos(a, s, d))], c, []));
            && p == Parsed([If(Translate(env, t), Declare("float", SincosVar(c).text, Paren(Translate(env, a)))),
                            Assign(Translate(env, s), Call("sin", [v])),
                            Assign(Translate(env, d), Call("cos", [v]))], [])
            && !Compiles(p)
  {
    hide Translate, Hlsl, SincosVar, WriteStmts, ParseStmts, OwnNames;
    var x := If(t, Sincos(a, s, d));
    assert x in [x] && WellFormedStmt(x) && !Braced(x) && !BracedAll([x]);
    CompilesExact(env, [x], c);
    BodyReads(env, [x], c);
    hide HlslStmts;
    var y := Sincos(a, s, d);
    var (z, more) := TurnSimple(env, y, c);
    assert Turn(env, y, c) == Some(Turned(z, more));
    assert Turn(env, x, c) == Some(Turned(If(Translate(env, t), z), more));
    TurnAlone(env, x, c);
    assert [If(Translate(env, t), z)] + more == [If(Translate(env, t), z), more[0], more[1]];
  }

  lemma {:induction false} TurnAlone(env: Env, x: Stmt, c: nat)
    requires WellFormedStmt(x) && WellFormedStmts([x]) && Turn(env, x, c).Some?
    ensures var r := Turn(env, x, c).value; TurnAll(env, [x], c) == Some([r.first] + r.more)
  {
    hide Turn;
    assert [x][1..] == [];
    var r := Turn(env, x, c).value;
    assert TurnAll(env, [], c + Counted(x)) == Some([]);
    assert [r.first] + r.more + [] == [r.first] + r.more;
  }
}
